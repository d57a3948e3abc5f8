/** The driver's side of a run (src/lib/server/services/driver.service.ts): the run a
    driver is given for a day, the stop update that moves a run from planned through in
    progress to completed, and the road-condition report. */
module Driver {
  import opened Wrappers
  import opened Schema
  import opened Db
  import opened Sorting
  import opened Text

  // ----- getAssignedRun -----

  /** The rows `WHERE driver_user_id = d AND run_date = date AND status <> 'completed'`;
      SQL equality never holds for a NULL driver. */
  predicate IsOpenRunOf(run: RouteRun, driverUserId: UserId, runDate: string) {
    run.driverUserId == Some(driverUserId) && run.runDate == runDate && run.status != Completed
  }

  function OpenRunsOf(runs: seq<RouteRun>, driverUserId: UserId, runDate: string): (rs: seq<RouteRun>)
    ensures forall x :: x in rs <==> x in runs && IsOpenRunOf(x, driverUserId, runDate)
  {
    if runs == [] then []
    else
      var init := OpenRunsOf(runs[..|runs| - 1], driverUserId, runDate);
      var last := runs[|runs| - 1];
      assert runs == runs[..|runs| - 1] + [last];
      if IsOpenRunOf(last, driverUserId, runDate) then init + [last] else init
  }

  /** The rows `WHERE route_run_id = runId`. */
  function StopsOfRun(stops: seq<RouteStop>, runId: int): (ss: seq<RouteStop>)
    ensures forall x :: x in ss <==> x in stops && x.routeRunId == runId
  {
    if stops == [] then []
    else
      var init := StopsOfRun(stops[..|stops| - 1], runId);
      var last := stops[|stops| - 1];
      assert stops == stops[..|stops| - 1] + [last];
      if last.routeRunId == runId then init + [last] else init
  }

  /** `ORDER BY created_at DESC` and `ORDER BY sequence ASC`. */
  predicate NewerFirst(a: RouteRun, b: RouteRun) {
    a.createdAt >= b.createdAt
  }

  predicate BySequence(a: RouteStop, b: RouteStop) {
    a.sequence <= b.sequence
  }

  datatype AssignedRun = AssignedRun(run: RouteRun, stops: seq<RouteStop>)

  /** `getAssignedRun(driverUserId, runDate)`: null, or the newest open run of the driver
      for the date together with its stops. */
  function GetAssignedRun(runs: seq<RouteRun>, stops: seq<RouteStop>, driverUserId: UserId, runDate: string): (r: Option<AssignedRun>)
    ensures r.None? <==> OpenRunsOf(runs, driverUserId, runDate) == []
    ensures r.Some? ==> r.value.run in runs && IsOpenRunOf(r.value.run, driverUserId, runDate)
  {
    var candidates := SortBy(OpenRunsOf(runs, driverUserId, runDate), NewerFirst);
    if candidates == [] then None
    else
      var run := candidates[0];
      assert run in multiset(OpenRunsOf(runs, driverUserId, runDate));
      Some(AssignedRun(run, SortBy(StopsOfRun(stops, run.id), BySequence)))
  }

  /** There is an assigned run exactly when the driver has an open run for the date, and
      it is the most recently created of those. */
  lemma GetAssignedRunIsNewestOpenRun(runs: seq<RouteRun>, stops: seq<RouteStop>, driverUserId: UserId, runDate: string)
    ensures var r := GetAssignedRun(runs, stops, driverUserId, runDate);
      r.None? <==> forall x :: x in runs ==> !IsOpenRunOf(x, driverUserId, runDate)
    ensures var r := GetAssignedRun(runs, stops, driverUserId, runDate);
      r.Some? ==>
        && r.value.run in runs && IsOpenRunOf(r.value.run, driverUserId, runDate)
        && forall x :: x in runs && IsOpenRunOf(x, driverUserId, runDate) ==> x.createdAt <= r.value.run.createdAt
  {
    var open := OpenRunsOf(runs, driverUserId, runDate);
    var candidates := SortBy(open, NewerFirst);
    if candidates != [] {
      assert candidates[0] in multiset(open);
      assert TotalPreorder(NewerFirst);
      SortBySorted(open, NewerFirst);
      forall x | x in runs && IsOpenRunOf(x, driverUserId, runDate) ensures x.createdAt <= candidates[0].createdAt {
        assert x in multiset(candidates);
        var j :| 0 <= j < |candidates| && candidates[j] == x;
        if j > 0 {
          assert NewerFirst(candidates[0], candidates[j]);
        }
      }
    } else {
      assert open == [];
    }
  }

  /** The stops returned with the run are exactly that run's stops, in ascending sequence. */
  lemma GetAssignedRunStops(runs: seq<RouteRun>, stops: seq<RouteStop>, driverUserId: UserId, runDate: string)
    ensures var r := GetAssignedRun(runs, stops, driverUserId, runDate);
      r.Some? ==>
        && (forall s :: s in r.value.stops <==> s in stops && s.routeRunId == r.value.run.id)
        && (forall i, j :: 0 <= i < j < |r.value.stops| ==> r.value.stops[i].sequence <= r.value.stops[j].sequence)
  {
    var r := GetAssignedRun(runs, stops, driverUserId, runDate);
    if r.Some? {
      var own := StopsOfRun(stops, r.value.run.id);
      assert forall s :: s in r.value.stops <==> s in multiset(own);
      assert TotalPreorder(BySequence);
      SortBySorted(own, BySequence);
    }
  }

  // ----- submitStopUpdate -----

  /** `run.driverUserId && run.driverUserId !== caller` forbids the update: a run with no
      driver (NULL or the empty string) accepts any caller. */
  function MayUpdate(run: RouteRun, caller: UserId): (ok: bool)
    ensures run.driverUserId.None? ==> ok
    ensures run.driverUserId.Some? && run.driverUserId.value != "" ==> (ok <==> caller == run.driverUserId.value)
  {
    run.driverUserId.None? || run.driverUserId.value == "" || run.driverUserId.value == caller
  }

  /** `input.notes?.trim() || null`. */
  function NormalizeNotes(notes: Option<string>): (r: Option<string>)
    ensures r.None? <==> notes.None? || IsBlank(notes.value)
    ensures r.Some? ==> r.value == Trim(notes.value) && r.value != []
  {
    match notes
    case None => None
    case Some(s) =>
      TrimEmptyIffBlank(s);
      var t := Trim(s);
      if t == [] then None else Some(t)
  }

  /** Normalised notes are left as they are by a second normalisation. */
  lemma NormalizeNotesIdempotent(notes: Option<string>)
    ensures NormalizeNotes(NormalizeNotes(notes)) == NormalizeNotes(notes)
  {
    if NormalizeNotes(notes).Some? {
      TrimIdempotent(notes.value);
    }
  }

  /** `completedAt: status === 'done' ? timestamp : null`. */
  function CompletedAt(status: StopStatus, now: int): (c: Option<int>)
    ensures c.Some? <==> status == Done
    ensures c.Some? ==> c.value == now
  {
    if status == Done then Some(now) else None
  }

  /** The run row after a stop update: a planned run is started (keeping a start time it
      already has), and a run with no pending stop left is completed. */
  function NextRunState(run: RouteRun, stillPending: bool, now: int): (next: RouteRun)
    ensures next.status == Completed <==> !stillPending || run.status == Completed
    ensures next.status == InProgress <==> stillPending && (run.status == Planned || run.status == InProgress)
    ensures next.status == Blocked <==> stillPending && run.status == Blocked
    ensures next == run.(status := next.status, startedAt := next.startedAt, completedAt := next.completedAt,
                         updatedAt := next.updatedAt)
  {
    var started :=
      if run.status == Planned then run.(status := InProgress, startedAt := Some(run.startedAt.GetOr(now)), updatedAt := now)
      else run;
    if stillPending then started else started.(status := Completed, completedAt := Some(now), updatedAt := now)
  }

  /** The forward order of run states; a blocked run is not on it. */
  function Progress(s: RunStatus): int {
    match s
    case Planned => 0
    case InProgress => 1
    case Completed => 2
    case Blocked => -1
  }

  /** A run never moves backwards: a completed run stays completed, a run in progress is
      never planned again, and only a planned run is started. */
  lemma NextRunStateNeverRegresses(run: RouteRun, stillPending: bool, now: int)
    ensures var next := NextRunState(run, stillPending, now);
      && (run.status == Completed ==> next.status == Completed)
      && (run.status != Blocked ==> Progress(next.status) >= Progress(run.status))
      && next.status != Planned
      && (run.status == Blocked ==> next.status == (if stillPending then Blocked else Completed))
  {
  }

  /** Starting keeps an existing start time and otherwise records `now`; with no pending stop
      left the run is completed at `now`, and otherwise its completion is untouched. */
  lemma NextRunStateTimes(run: RouteRun, stillPending: bool, now: int)
    ensures var next := NextRunState(run, stillPending, now);
      && (run.status == Planned ==> next.startedAt == Some(run.startedAt.GetOr(now)))
      && (run.status != Planned ==> next.startedAt == run.startedAt)
      && (!stillPending ==> next.status == Completed && next.completedAt == Some(now))
      && (stillPending ==> next.completedAt == run.completedAt)
      && next.id == run.id && next.driverUserId == run.driverUserId && next.runDate == run.runDate
  {
  }

  /** `SELECT id FROM route_stop WHERE route_run_id = runId AND status = 'pending' LIMIT 1`
      finds a row. */
  function HasPendingStop(stops: seq<RouteStop>, runId: int): (b: bool)
    ensures b <==> exists i :: 0 <= i < |stops| && stops[i].routeRunId == runId && stops[i].status == Pending
  {
    if stops == [] then false
    else if stops[0].routeRunId == runId && stops[0].status == Pending then true
    else
      assert forall i :: 1 <= i < |stops| ==> stops[1..][i - 1] == stops[i];
      HasPendingStop(stops[1..], runId)
  }

  /** With unique run ids an UPDATE by id touches the one row `FindRun` finds. */
  lemma RunUpdatesAt(runs: seq<RouteRun>, next: int, k: nat, startedAt: int, now: int)
    requires RunIdsOk(runs, next) && k < |runs|
    ensures RunsStarted(runs, runs[k].id, startedAt, now)
      == runs[k := runs[k].(status := InProgress, startedAt := Some(startedAt), updatedAt := now)]
    ensures RunsCompleted(runs, runs[k].id, now)
      == runs[k := runs[k].(status := Completed, completedAt := Some(now), updatedAt := now)]
  {
    assert forall i :: 0 <= i < |runs| && i != k ==> runs[i].id != runs[k].id by {
      forall i | 0 <= i < |runs| && i != k ensures runs[i].id != runs[k].id {
        if i < k { assert runs[i].id < runs[k].id; } else { assert runs[k].id < runs[i].id; }
      }
    }
  }

  /** With unique stop ids the stop update touches the one row `FindStop` finds, and none
      when it finds nothing. */
  lemma StopUpdateAt(stops: seq<RouteStop>, next: int, stopId: int, runId: int, status: StopStatus,
                     notes: Option<string>, completedAt: Option<int>, now: int)
    requires StopIdsOk(stops, next)
    ensures FindStop(stops, stopId, runId).None? ==> StopsUpdated(stops, stopId, runId, status, notes, completedAt, now) == stops
    ensures FindStop(stops, stopId, runId).Some? ==>
      var j := FindStop(stops, stopId, runId).value;
      StopsUpdated(stops, stopId, runId, status, notes, completedAt, now)
        == stops[j := UpdatedStop(stops[j], status, notes, completedAt, now)]
  {
    if FindStop(stops, stopId, runId).Some? {
      var j := FindStop(stops, stopId, runId).value;
      forall i | 0 <= i < |stops| && i != j ensures stops[i].id != stops[j].id {
        if i < j { assert stops[i].id < stops[j].id; } else { assert stops[j].id < stops[i].id; }
      }
    }
  }

  /** Nothing the stop update writes to has changed. */
  twostate predicate Untouched(db: Store)
    reads db
  {
    db.stops == old(db.stops) && db.runs == old(db.runs) && db.events == old(db.events) && db.nextEventId == old(db.nextEventId)
  }

  /** `submitStopUpdate(input)`; `now` is `Date.now()`. */
  method SubmitStopUpdate(db: Store, driverUserId: UserId, runId: int, stopId: int, status: string,
                          notes: Option<string>, now: int)
    returns (r: Result<RouteStop>)
    requires db.Valid()
    modifies db`stops, db`runs, db`events, db`nextEventId
    ensures db.Valid()
    ensures ParseStopStatus(status).None? ==> r == Err(HttpError(400, "Invalid stop status")) && Untouched(db)
    ensures ParseStopStatus(status).Some? && FindRun(old(db.runs), runId).None? ==>
      r == Err(HttpError(404, "Route run not found")) && Untouched(db)
    ensures ParseStopStatus(status).Some? && FindRun(old(db.runs), runId).Some? ==>
      var k := FindRun(old(db.runs), runId).value;
      !MayUpdate(old(db.runs)[k], driverUserId) ==>
        r == Err(HttpError(403, "You are not assigned to this run.")) && Untouched(db)
    ensures ParseStopStatus(status).Some? && FindRun(old(db.runs), runId).Some? ==>
      var k := FindRun(old(db.runs), runId).value;
      MayUpdate(old(db.runs)[k], driverUserId) && FindStop(old(db.stops), stopId, runId).None? ==>
        r == Err(HttpError(404, "Stop not found")) && Untouched(db)
    ensures ParseStopStatus(status).Some? && FindRun(old(db.runs), runId).Some? ==>
      var st := ParseStopStatus(status).value;
      var k := FindRun(old(db.runs), runId).value;
      MayUpdate(old(db.runs)[k], driverUserId) && FindStop(old(db.stops), stopId, runId).Some? ==>
        var j := FindStop(old(db.stops), stopId, runId).value;
        var stop := UpdatedStop(old(db.stops)[j], st, NormalizeNotes(notes), CompletedAt(st, now), now);
        && r == Ok(stop)
        && db.stops == old(db.stops)[j := stop]
        && db.runs == old(db.runs)[k := NextRunState(old(db.runs)[k], HasPendingStop(db.stops, runId), now)]
        && db.events == old(db.events) + [DriverEvent(old(db.nextEventId), Some(runId), driverUserId, "stop_update",
                                                      StopUpdatePayload(stopId, st, NormalizeNotes(notes)))]
        && db.nextEventId == old(db.nextEventId) + 1
  {
    var parsed := ParseStopStatus(status);
    if parsed.None? {
      return Err(HttpError(400, "Invalid stop status"));
    }
    var st := parsed.value;
    var found := FindRun(db.runs, runId);
    if found.None? {
      return Err(HttpError(404, "Route run not found"));
    }
    var k := found.value;
    var run := db.runs[k];
    if !MayUpdate(run, driverUserId) {
      return Err(HttpError(403, "You are not assigned to this run."));
    }
    r := ApplyStopUpdate(db, driverUserId, runId, k, stopId, st, notes, now);
  }

  /** The writes of `submitStopUpdate` once the status, the run and the caller are accepted. */
  method ApplyStopUpdate(db: Store, driverUserId: UserId, runId: int, k: nat, stopId: int, st: StopStatus,
                         notes: Option<string>, now: int)
    returns (r: Result<RouteStop>)
    requires db.Valid() && k < |db.runs| && db.runs[k].id == runId
    modifies db`stops, db`runs, db`events, db`nextEventId
    ensures db.Valid()
    ensures FindStop(old(db.stops), stopId, runId).None? ==> r == Err(HttpError(404, "Stop not found")) && Untouched(db)
    ensures FindStop(old(db.stops), stopId, runId).Some? ==>
        var j := FindStop(old(db.stops), stopId, runId).value;
        var stop := UpdatedStop(old(db.stops)[j], st, NormalizeNotes(notes), CompletedAt(st, now), now);
        && r == Ok(stop)
        && db.stops == old(db.stops)[j := stop]
        && db.runs == old(db.runs)[k := NextRunState(old(db.runs)[k], HasPendingStop(db.stops, runId), now)]
        && db.events == old(db.events) + [DriverEvent(old(db.nextEventId), Some(runId), driverUserId, "stop_update",
                                                      StopUpdatePayload(stopId, st, NormalizeNotes(notes)))]
        && db.nextEventId == old(db.nextEventId) + 1
  {
    var trimmedNotes := NormalizeNotes(notes);
    assert StopIdsOk(db.stops, db.nextStopId);
    StopUpdateAt(db.stops, db.nextStopId, stopId, runId, st, trimmedNotes, CompletedAt(st, now), now);
    var updatedStop := db.UpdateStop(stopId, runId, st, trimmedNotes, CompletedAt(st, now), now);
    if updatedStop.None? {
      return Err(HttpError(404, "Stop not found"));
    }
    AdvanceRun(db, runId, k, now);
    db.AppendEvent(Some(runId), driverUserId, "stop_update", StopUpdatePayload(stopId, st, trimmedNotes));
    r := Ok(updatedStop.value);
  }

  /** The run updates after a stop update: start a planned run, then complete it if no stop
      of it is pending. */
  method AdvanceRun(db: Store, runId: int, k: nat, now: int)
    requires db.Valid() && k < |db.runs| && db.runs[k].id == runId
    modifies db`runs
    ensures db.Valid()
    ensures db.runs == old(db.runs)[k := NextRunState(old(db.runs)[k], HasPendingStop(db.stops, runId), now)]
  {
    var run := db.runs[k];
    assert RunIdsOk(db.runs, db.nextRunId);
    RunUpdatesAt(db.runs, db.nextRunId, k, run.startedAt.GetOr(now), now);
    if run.status == Planned {
      db.StartRun(runId, run.startedAt.GetOr(now), now);
    }
    assert RunIdsOk(db.runs, db.nextRunId) && db.runs[k].id == runId;
    RunUpdatesAt(db.runs, db.nextRunId, k, 0, now);
    var pending := HasPendingStop(db.stops, runId);
    if !pending {
      db.CompleteRun(runId, now);
    }
  }

  // ----- submitRoadConditionIssue -----

  /** `submitRoadConditionIssue(input)`. An undefined severity leaves the column to its
      default `medium` and is left out of the logged payload; an explicit `null` reaches the
      NOT NULL `severity` column, so the insert fails and nothing is written. */
  method SubmitRoadConditionIssue(db: Store, driverUserId: UserId, runId: Option<int>, zoneId: Option<int>,
                                  severity: SeverityArg, description: string,
                                  latitude: Option<real>, longitude: Option<real>)
    returns (r: Result<RoadConditionReport>)
    requires db.Valid()
    modifies db`roadIssues, db`nextRoadIssueId, db`events, db`nextEventId
    ensures db.Valid()
    ensures r.Err? ==>
      && db.roadIssues == old(db.roadIssues) && db.events == old(db.events)
      && db.nextRoadIssueId == old(db.nextRoadIssueId) && db.nextEventId == old(db.nextEventId)
    ensures IsBlank(description) ==> r == Err(HttpError(400, "Description is required"))
    ensures !IsBlank(description) && severity.NullLevel? ==> r == Err(Internal(SeverityNotNull))
    ensures !IsBlank(description) && !severity.NullLevel? ==>
      var level := if severity.Level? then Some(severity.level) else None;
      var row := RoadConditionReport(old(db.nextRoadIssueId), driverUserId, zoneId, level.GetOr(Medium),
                                     Trim(description), latitude, longitude);
      && r == Ok(row)
      && db.roadIssues == old(db.roadIssues) + [row]
      && db.events == old(db.events) + [DriverEvent(old(db.nextEventId), runId, driverUserId, "road_condition_report",
                                                    RoadConditionPayload(row.id, level))]
      && db.nextRoadIssueId == old(db.nextRoadIssueId) + 1 && db.nextEventId == old(db.nextEventId) + 1
  {
    TrimEmptyIffBlank(description);
    if Trim(description) == [] {
      return Err(HttpError(400, "Description is required"));
    }
    var level: Option<Severity>;
    match severity {
      case NullLevel => return Err(Internal(SeverityNotNull));
      case Unset => level := None;
      case Level(s) => level := Some(s);
    }
    var created := db.InsertRoadIssue(driverUserId, zoneId, level.GetOr(Medium), Trim(description), latitude, longitude);
    db.AppendEvent(runId, driverUserId, "road_condition_report", RoadConditionPayload(created.id, level));
    r := Ok(created);
  }

  /** The database's refusal of an explicit `null` in `road_condition_report.severity`. */
  const SeverityNotNull := "NOT NULL constraint failed: road_condition_report.severity"
}
