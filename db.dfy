/** The relational store, held in memory: one sequence of rows per table in insertion
    (rowid) order, and one auto-increment counter per table that the core inserts into.
    Each method of `Store` is one SQL statement the services issue; the functions before
    the class say what an UPDATE does to a table. */
module Db {
  import opened Wrappers
  import opened Schema

  /** `UPDATE citizen_report SET status, updated_at WHERE id = reportId`. */
  function ReportsWithStatus(reports: seq<CitizenReport>, reportId: int, status: ReportStatus, now: int): (r: seq<CitizenReport>)
    ensures |r| == |reports|
    ensures forall i :: 0 <= i < |r| ==>
      r[i] == if reports[i].id == reportId then reports[i].(status := status, updatedAt := now) else reports[i]
  {
    seq(|reports|, i requires 0 <= i < |reports| =>
      if reports[i].id == reportId then reports[i].(status := status, updatedAt := now) else reports[i])
  }

  /** The rows of an UPDATE ... WHERE id = reportId ... RETURNING. */
  function ReportsWithId(reports: seq<CitizenReport>, reportId: int): (r: seq<CitizenReport>)
    ensures forall x :: x in r <==> x in reports && x.id == reportId
  {
    if reports == [] then []
    else (if reports[0].id == reportId then [reports[0]] else []) + ReportsWithId(reports[1..], reportId)
  }

  /** The stop row a stop update produces. */
  function UpdatedStop(s: RouteStop, status: StopStatus, notes: Option<string>, completedAt: Option<int>, now: int): (r: RouteStop)
    ensures r.id == s.id && r.routeRunId == s.routeRunId && r.sequence == s.sequence && r.sourceReportId == s.sourceReportId
    ensures r.zoneId == s.zoneId && r.latitude == s.latitude && r.longitude == s.longitude && r.action == s.action
    ensures r.createdAt == s.createdAt
    ensures r.status == status && r.notes == notes && r.completedAt == completedAt
  {
    s.(status := status, notes := notes, completedAt := completedAt, updatedAt := now)
  }

  /** `UPDATE route_stop SET ... WHERE id = stopId AND route_run_id = runId`. */
  function StopsUpdated(stops: seq<RouteStop>, stopId: int, runId: int, status: StopStatus,
                        notes: Option<string>, completedAt: Option<int>, now: int): (r: seq<RouteStop>)
    ensures |r| == |stops|
    ensures forall i :: 0 <= i < |r| ==>
      r[i] == if stops[i].id == stopId && stops[i].routeRunId == runId
              then UpdatedStop(stops[i], status, notes, completedAt, now) else stops[i]
  {
    seq(|stops|, i requires 0 <= i < |stops| =>
      if stops[i].id == stopId && stops[i].routeRunId == runId
      then UpdatedStop(stops[i], status, notes, completedAt, now) else stops[i])
  }

  /** The first index of a stop with this id in this run, as `.returning()` then `[updatedStop]` reads it. */
  function FindStop(stops: seq<RouteStop>, stopId: int, runId: int): (r: Option<nat>)
    ensures r.Some? ==> r.value < |stops| && stops[r.value].id == stopId && stops[r.value].routeRunId == runId
    ensures r.Some? ==> forall i :: 0 <= i < r.value ==> !(stops[i].id == stopId && stops[i].routeRunId == runId)
    ensures r.None? ==> forall i :: 0 <= i < |stops| ==> !(stops[i].id == stopId && stops[i].routeRunId == runId)
  {
    if stops == [] then None
    else if stops[0].id == stopId && stops[0].routeRunId == runId then Some(0)
    else match FindStop(stops[1..], stopId, runId)
      case None => None
      case Some(k) => Some(k + 1)
  }

  /** The first index of a run with this id (`SELECT ... WHERE id = runId LIMIT 1`). */
  function FindRun(runs: seq<RouteRun>, runId: int): (r: Option<nat>)
    ensures r.Some? ==> r.value < |runs| && runs[r.value].id == runId
    ensures r.Some? ==> forall i :: 0 <= i < r.value ==> runs[i].id != runId
    ensures r.None? ==> forall i :: 0 <= i < |runs| ==> runs[i].id != runId
  {
    if runs == [] then None
    else if runs[0].id == runId then Some(0)
    else match FindRun(runs[1..], runId)
      case None => None
      case Some(k) => Some(k + 1)
  }

  /** `UPDATE route_run SET status = 'in_progress', started_at, updated_at WHERE id = runId`. */
  function RunsStarted(runs: seq<RouteRun>, runId: int, startedAt: int, now: int): (r: seq<RouteRun>)
    ensures |r| == |runs|
    ensures forall i :: 0 <= i < |r| ==>
      r[i] == if runs[i].id == runId
              then runs[i].(status := InProgress, startedAt := Some(startedAt), updatedAt := now) else runs[i]
  {
    seq(|runs|, i requires 0 <= i < |runs| =>
      if runs[i].id == runId then runs[i].(status := InProgress, startedAt := Some(startedAt), updatedAt := now) else runs[i])
  }

  /** `UPDATE route_run SET status = 'completed', completed_at, updated_at WHERE id = runId`. */
  function RunsCompleted(runs: seq<RouteRun>, runId: int, now: int): (r: seq<RouteRun>)
    ensures |r| == |runs|
    ensures forall i :: 0 <= i < |r| ==>
      r[i] == if runs[i].id == runId
              then runs[i].(status := Completed, completedAt := Some(now), updatedAt := now) else runs[i]
  {
    seq(|runs|, i requires 0 <= i < |runs| =>
      if runs[i].id == runId then runs[i].(status := Completed, completedAt := Some(now), updatedAt := now) else runs[i])
  }

  /** `UPDATE route_run SET planned_distance_km, updated_at WHERE id = runId`. */
  function RunsWithDistance(runs: seq<RouteRun>, runId: int, km: real, now: int): (r: seq<RouteRun>)
    ensures |r| == |runs|
    ensures forall i :: 0 <= i < |r| ==>
      r[i] == if runs[i].id == runId then runs[i].(plannedDistanceKm := km, updatedAt := now) else runs[i]
  {
    seq(|runs|, i requires 0 <= i < |runs| =>
      if runs[i].id == runId then runs[i].(plannedDistanceKm := km, updatedAt := now) else runs[i])
  }

  /** The rows of a multi-row INSERT, numbered by the table's counter. */
  function WithStopIds(rows: seq<RouteStop>, firstId: int): (r: seq<RouteStop>)
    ensures |r| == |rows|
    ensures forall j :: 0 <= j < |r| ==> r[j] == rows[j].(id := firstId + j)
  {
    seq(|rows|, j requires 0 <= j < |rows| => rows[j].(id := firstId + j))
  }

  /** The first index of the forecast row for (zone, date): the row the unique index
      `waste_forecast_zone_date_idx` makes an insert conflict with. */
  function FindForecast(forecasts: seq<WasteForecast>, zoneId: int, date: string): (r: Option<nat>)
    ensures r.Some? ==> r.value < |forecasts| && forecasts[r.value].zoneId == zoneId && forecasts[r.value].forecastDate == date
    ensures r.None? ==> forall i :: 0 <= i < |forecasts| ==> !(forecasts[i].zoneId == zoneId && forecasts[i].forecastDate == date)
  {
    if forecasts == [] then None
    else if forecasts[0].zoneId == zoneId && forecasts[0].forecastDate == date then Some(0)
    else match FindForecast(forecasts[1..], zoneId, date)
      case None => None
      case Some(k) => Some(k + 1)
  }

  /** `INSERT INTO waste_forecast ... ON CONFLICT (zone_id, forecast_date) DO UPDATE SET
      predicted_volume_kg, confidence, created_at`, with the counter after it. */
  function Upserted(forecasts: seq<WasteForecast>, nextId: int, zoneId: int, date: string,
                    volume: int, confidencePct: int, now: int): (r: (seq<WasteForecast>, int))
    ensures FindForecast(forecasts, zoneId, date).Some? ==> r.1 == nextId && |r.0| == |forecasts|
    ensures FindForecast(forecasts, zoneId, date).None? ==> r.1 == nextId + 1 && |r.0| == |forecasts| + 1
  {
    match FindForecast(forecasts, zoneId, date)
    case Some(k) =>
      (forecasts[k := forecasts[k].(predictedVolumeKg := volume, confidencePct := confidencePct, createdAt := now)], nextId)
    case None =>
      (forecasts + [WasteForecast(nextId, zoneId, date, volume, confidencePct, now)], nextId + 1)
  }

  /** The first role row of a user (`SELECT role FROM user_role WHERE user_id = ? LIMIT 1`). */
  function RoleOf(userRoles: seq<UserRoleRow>, userId: UserId): (r: Option<Role>)
    ensures r.None? <==> forall i :: 0 <= i < |userRoles| ==> userRoles[i].userId != userId
    ensures r.Some? ==> exists i :: 0 <= i < |userRoles| && userRoles[i].userId == userId && userRoles[i].role == r.value
  {
    if userRoles == [] then None
    else if userRoles[0].userId == userId then Some(userRoles[0].role)
    else RoleOf(userRoles[1..], userId)
  }

  // ----- table invariants -----

  ghost predicate ZonesOk(zones: seq<Zone>) {
    && (forall i :: 0 <= i < |zones| ==> zones[i].id >= 1)
    && (forall i, j :: 0 <= i < j < |zones| ==> zones[i].id != zones[j].id)
  }

  ghost predicate ReportIdsOk(reports: seq<CitizenReport>, next: int) {
    && next >= 1
    && (forall i :: 0 <= i < |reports| ==> 1 <= reports[i].id < next)
    && (forall i, j :: 0 <= i < j < |reports| ==> reports[i].id < reports[j].id)
  }

  ghost predicate RunIdsOk(runs: seq<RouteRun>, next: int) {
    && next >= 1
    && (forall i :: 0 <= i < |runs| ==> 1 <= runs[i].id < next)
    && (forall i, j :: 0 <= i < j < |runs| ==> runs[i].id < runs[j].id)
  }

  ghost predicate StopIdsOk(stops: seq<RouteStop>, next: int) {
    && next >= 1
    && (forall i :: 0 <= i < |stops| ==> 1 <= stops[i].id < next)
    && (forall i, j :: 0 <= i < j < |stops| ==> stops[i].id < stops[j].id)
  }

  /** Every stop belongs to a run allocated before it (route_stop.route_run_id references route_run). */
  ghost predicate StopsOfKnownRuns(stops: seq<RouteStop>, nextRunId: int) {
    forall i :: 0 <= i < |stops| ==> stops[i].routeRunId < nextRunId
  }

  /** The unique index `route_stop_route_sequence_idx` on (route_run_id, sequence). */
  ghost predicate StopSequencesUnique(stops: seq<RouteStop>) {
    forall i, j :: 0 <= i < j < |stops| ==>
      !(stops[i].routeRunId == stops[j].routeRunId && stops[i].sequence == stops[j].sequence)
  }

  /** A stop has a completion time exactly when it is done. */
  ghost predicate StopCompletionConsistent(stops: seq<RouteStop>) {
    forall i :: 0 <= i < |stops| ==> (stops[i].completedAt.Some? <==> stops[i].status == Done)
  }

  /** A started run has a start time and a completed run a completion time. */
  ghost predicate RunTimestampsConsistent(runs: seq<RouteRun>) {
    forall i :: 0 <= i < |runs| ==>
      && (runs[i].status == InProgress ==> runs[i].startedAt.Some?)
      && (runs[i].status == Completed ==> runs[i].completedAt.Some?)
  }

  /** The unique index `waste_forecast_zone_date_idx` on (zone_id, forecast_date). */
  ghost predicate ForecastKeysUnique(forecasts: seq<WasteForecast>) {
    forall i, j :: 0 <= i < j < |forecasts| ==>
      !(forecasts[i].zoneId == forecasts[j].zoneId && forecasts[i].forecastDate == forecasts[j].forecastDate)
  }

  /** user_role.user_id is unique. */
  ghost predicate UserRolesUnique(userRoles: seq<UserRoleRow>) {
    forall i, j :: 0 <= i < j < |userRoles| ==> userRoles[i].userId != userRoles[j].userId
  }

  /** An upsert keeps the (zone, date) key unique and touches no other key. */
  lemma UpsertKeepsKeysUnique(forecasts: seq<WasteForecast>, nextId: int, zoneId: int, date: string,
                              volume: int, confidencePct: int, now: int)
    requires ForecastKeysUnique(forecasts)
    ensures ForecastKeysUnique(Upserted(forecasts, nextId, zoneId, date, volume, confidencePct, now).0)
    ensures var t := Upserted(forecasts, nextId, zoneId, date, volume, confidencePct, now).0;
      FindForecast(t, zoneId, date).Some?
  {
    var t := Upserted(forecasts, nextId, zoneId, date, volume, confidencePct, now).0;
    match FindForecast(forecasts, zoneId, date)
    case None =>
      assert t[|forecasts|].zoneId == zoneId && t[|forecasts|].forecastDate == date;
    case Some(k) =>
      assert t[k].zoneId == zoneId && t[k].forecastDate == date;
  }

  /** A stop update keeps every stop's id, run and sequence, and keeps "completed
      exactly when done" when the new completion time is given exactly for done. */
  lemma StopsUpdatedKeepsInvariants(stops: seq<RouteStop>, nextStopId: int, nextRunId: int, stopId: int, runId: int,
                                    status: StopStatus, notes: Option<string>, completedAt: Option<int>, now: int)
    requires StopIdsOk(stops, nextStopId) && StopsOfKnownRuns(stops, nextRunId)
    requires StopSequencesUnique(stops) && StopCompletionConsistent(stops)
    requires completedAt.Some? <==> status == Done
    ensures var r := StopsUpdated(stops, stopId, runId, status, notes, completedAt, now);
      && StopIdsOk(r, nextStopId) && StopsOfKnownRuns(r, nextRunId)
      && StopSequencesUnique(r) && StopCompletionConsistent(r)
  {
    var r := StopsUpdated(stops, stopId, runId, status, notes, completedAt, now);
    forall i | 0 <= i < |r|
      ensures r[i].id == stops[i].id && r[i].routeRunId == stops[i].routeRunId && r[i].sequence == stops[i].sequence
      ensures r[i].completedAt.Some? <==> r[i].status == Done
    {
    }
  }

  class Store {
    var zones: seq<Zone>
    var driverProfiles: seq<DriverProfile>
    var userRoles: seq<UserRoleRow>
    var reports: seq<CitizenReport>
    var photos: seq<ReportPhoto>
    var forecasts: seq<WasteForecast>
    var runs: seq<RouteRun>
    var stops: seq<RouteStop>
    var events: seq<DriverEvent>
    var roadIssues: seq<RoadConditionReport>

    var nextUserRoleId: int
    var nextReportId: int
    var nextPhotoId: int
    var nextForecastId: int
    var nextRunId: int
    var nextStopId: int
    var nextEventId: int
    var nextRoadIssueId: int

    ghost predicate Valid()
      reads this
    {
      && ZonesOk(zones)
      && UserRolesUnique(userRoles)
      && ReportIdsOk(reports, nextReportId)
      && RunIdsOk(runs, nextRunId)
      && StopIdsOk(stops, nextStopId)
      && StopsOfKnownRuns(stops, nextRunId)
      && StopSequencesUnique(stops)
      && StopCompletionConsistent(stops)
      && RunTimestampsConsistent(runs)
      && ForecastKeysUnique(forecasts)
    }

    /** A store whose administrative tables (zones, driver profiles) are given and whose
        other tables are empty. */
    constructor (zones: seq<Zone>, driverProfiles: seq<DriverProfile>)
      requires ZonesOk(zones)
      ensures Valid()
      ensures this.zones == zones && this.driverProfiles == driverProfiles
      ensures userRoles == [] && reports == [] && photos == [] && forecasts == []
      ensures runs == [] && stops == [] && events == [] && roadIssues == []
    {
      this.zones := zones;
      this.driverProfiles := driverProfiles;
      userRoles, reports, photos, forecasts := [], [], [], [];
      runs, stops, events, roadIssues := [], [], [], [];
      nextUserRoleId, nextReportId, nextPhotoId, nextForecastId := 1, 1, 1, 1;
      nextRunId, nextStopId, nextEventId, nextRoadIssueId := 1, 1, 1, 1;
    }

    /** `INSERT INTO user_role (user_id, role)`; the unique user_id makes a second row for
        the same user fail. */
    method InsertUserRole(userId: UserId, role: Role) returns (r: Result<UserRoleRow>)
      requires Valid()
      modifies this`userRoles, this`nextUserRoleId
      ensures Valid()
      ensures RoleOf(old(userRoles), userId).Some? ==>
        r.Err? && userRoles == old(userRoles) && nextUserRoleId == old(nextUserRoleId)
      ensures RoleOf(old(userRoles), userId).None? ==>
        && r == Ok(UserRoleRow(old(nextUserRoleId), userId, role))
        && userRoles == old(userRoles) + [r.value]
        && nextUserRoleId == old(nextUserRoleId) + 1
    {
      if RoleOf(userRoles, userId).Some? {
        return Err(Internal("UNIQUE constraint failed: user_role.user_id"));
      }
      var row := UserRoleRow(nextUserRoleId, userId, role);
      userRoles := userRoles + [row];
      nextUserRoleId := nextUserRoleId + 1;
      r := Ok(row);
    }

    /** `INSERT INTO citizen_report ... RETURNING`: status takes the column default `open`. */
    method InsertReport(reporterUserId: UserId, category: Category, description: string,
                        latitude: real, longitude: real, zoneId: Option<int>, now: int)
      returns (row: CitizenReport)
      requires Valid()
      modifies this`reports, this`nextReportId
      ensures Valid()
      ensures row == CitizenReport(old(nextReportId), reporterUserId, zoneId, category, description,
                                   latitude, longitude, Open, now, now)
      ensures reports == old(reports) + [row] && nextReportId == old(nextReportId) + 1
    {
      row := CitizenReport(nextReportId, reporterUserId, zoneId, category, description,
                           latitude, longitude, Open, now, now);
      reports := reports + [row];
      nextReportId := nextReportId + 1;
    }

    /** `INSERT INTO report_photo ... RETURNING`. */
    method InsertPhoto(reportId: int, objectKey: string, publicUrl: string) returns (row: ReportPhoto)
      requires Valid()
      modifies this`photos, this`nextPhotoId
      ensures Valid()
      ensures row == ReportPhoto(old(nextPhotoId), reportId, objectKey, publicUrl)
      ensures photos == old(photos) + [row] && nextPhotoId == old(nextPhotoId) + 1
    {
      row := ReportPhoto(nextPhotoId, reportId, objectKey, publicUrl);
      photos := photos + [row];
      nextPhotoId := nextPhotoId + 1;
    }

    /** `UPDATE citizen_report SET status, updated_at WHERE id = reportId RETURNING`. */
    method SetReportStatus(reportId: int, status: ReportStatus, now: int) returns (updated: seq<CitizenReport>)
      requires Valid()
      modifies this`reports
      ensures Valid()
      ensures reports == ReportsWithStatus(old(reports), reportId, status, now)
      ensures updated == ReportsWithId(reports, reportId)
    {
      reports := ReportsWithStatus(reports, reportId, status, now);
      updated := ReportsWithId(reports, reportId);
    }

    /** The forecast upsert on (zone_id, forecast_date). */
    method UpsertForecast(zoneId: int, date: string, volume: int, confidencePct: int, now: int)
      requires Valid()
      modifies this`forecasts, this`nextForecastId
      ensures Valid()
      ensures (forecasts, nextForecastId) == Upserted(old(forecasts), old(nextForecastId), zoneId, date, volume, confidencePct, now)
    {
      UpsertKeepsKeysUnique(forecasts, nextForecastId, zoneId, date, volume, confidencePct, now);
      var t := Upserted(forecasts, nextForecastId, zoneId, date, volume, confidencePct, now);
      forecasts, nextForecastId := t.0, t.1;
    }

    /** `INSERT INTO route_run ... RETURNING`; a new run has no start or completion time. */
    method InsertRun(runDate: string, wardId: Option<int>, driverUserId: Option<UserId>, now: int)
      returns (row: RouteRun)
      requires Valid()
      modifies this`runs, this`nextRunId
      ensures Valid()
      ensures row == RouteRun(old(nextRunId), runDate, wardId, driverUserId, Planned, 0.0, None, None, now, now)
      ensures runs == old(runs) + [row] && nextRunId == old(nextRunId) + 1
    {
      row := RouteRun(nextRunId, runDate, wardId, driverUserId, Planned, 0.0, None, None, now, now);
      runs := runs + [row];
      nextRunId := nextRunId + 1;
    }

    method SetRunDistance(runId: int, km: real, now: int)
      requires Valid()
      modifies this`runs
      ensures Valid()
      ensures runs == RunsWithDistance(old(runs), runId, km, now)
    {
      runs := RunsWithDistance(runs, runId, km, now);
    }

    method StartRun(runId: int, startedAt: int, now: int)
      requires Valid()
      modifies this`runs
      ensures Valid()
      ensures runs == RunsStarted(old(runs), runId, startedAt, now)
    {
      runs := RunsStarted(runs, runId, startedAt, now);
    }

    method CompleteRun(runId: int, now: int)
      requires Valid()
      modifies this`runs
      ensures Valid()
      ensures runs == RunsCompleted(old(runs), runId, now)
    {
      runs := RunsCompleted(runs, runId, now);
    }

    /** `INSERT INTO route_stop VALUES (...), (...)` for the stops of a run created after
        every existing stop's run, numbered with sequences that are distinct. */
    method InsertStops(rows: seq<RouteStop>)
      requires Valid()
      requires forall j :: 0 <= j < |rows| ==> nextRunId > rows[j].routeRunId
      requires forall j :: 0 <= j < |rows| ==> rows[j].status == Pending && rows[j].completedAt.None?
      requires forall i, j :: 0 <= i < j < |rows| ==> rows[i].routeRunId == rows[j].routeRunId && rows[i].sequence != rows[j].sequence
      requires rows != [] ==> forall i :: 0 <= i < |stops| ==> stops[i].routeRunId != rows[0].routeRunId
      modifies this`stops, this`nextStopId
      ensures Valid()
      ensures stops == old(stops) + WithStopIds(rows, old(nextStopId))
      ensures nextStopId == old(nextStopId) + |rows|
    {
      var added := WithStopIds(rows, nextStopId);
      stops := stops + added;
      nextStopId := nextStopId + |rows|;
    }

    /** `UPDATE route_stop SET status, notes, completed_at, updated_at WHERE id = stopId AND
        route_run_id = runId RETURNING`; completedAt is given exactly when the status is done. */
    method UpdateStop(stopId: int, runId: int, status: StopStatus, notes: Option<string>,
                      completedAt: Option<int>, now: int) returns (updated: Option<RouteStop>)
      requires Valid()
      requires completedAt.Some? <==> status == Done
      modifies this`stops
      ensures Valid()
      ensures stops == StopsUpdated(old(stops), stopId, runId, status, notes, completedAt, now)
      ensures updated == match FindStop(old(stops), stopId, runId)
                         case None => None
                         case Some(k) => Some(stops[k])
    {
      var k := FindStop(stops, stopId, runId);
      StopsUpdatedKeepsInvariants(stops, nextStopId, nextRunId, stopId, runId, status, notes, completedAt, now);
      stops := StopsUpdated(stops, stopId, runId, status, notes, completedAt, now);
      updated := match k case None => None case Some(i) => Some(stops[i]);
    }

    /** `INSERT INTO driver_event_log`: the log only ever grows at its end. */
    method AppendEvent(routeRunId: Option<int>, driverUserId: UserId, eventType: string, payload: EventPayload)
      requires Valid()
      modifies this`events, this`nextEventId
      ensures Valid()
      ensures events == old(events) + [DriverEvent(old(nextEventId), routeRunId, driverUserId, eventType, payload)]
      ensures nextEventId == old(nextEventId) + 1
    {
      events := events + [DriverEvent(nextEventId, routeRunId, driverUserId, eventType, payload)];
      nextEventId := nextEventId + 1;
    }

    /** `INSERT INTO road_condition_report ... RETURNING`. */
    method InsertRoadIssue(reporterUserId: UserId, zoneId: Option<int>, severity: Severity, description: string,
                           latitude: Option<real>, longitude: Option<real>) returns (row: RoadConditionReport)
      requires Valid()
      modifies this`roadIssues, this`nextRoadIssueId
      ensures Valid()
      ensures row == RoadConditionReport(old(nextRoadIssueId), reporterUserId, zoneId, severity, description, latitude, longitude)
      ensures roadIssues == old(roadIssues) + [row] && nextRoadIssueId == old(nextRoadIssueId) + 1
    {
      row := RoadConditionReport(nextRoadIssueId, reporterUserId, zoneId, severity, description, latitude, longitude);
      roadIssues := roadIssues + [row];
      nextRoadIssueId := nextRoadIssueId + 1;
    }
  }
}
