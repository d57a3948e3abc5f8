/** The driver's remote functions (src/lib/api/driver-ops.remote.ts): the current run, the
    stop update and the road-condition report, each behind the sign-in check, with the
    request's loosely typed numbers and severity converted on the way in. */
module DriverOpsApi {
  import opened Wrappers
  import opened Schema
  import opened Db
  import opened Js
  import opened Authz
  import opened Driver
  import opened Text

  /** `toOptionalNumber(value)`: missing and NaN become `undefined`; every other number,
      the infinities included, is kept. */
  function ToOptionalNumber(v: FormValue, parse: string -> JsNumber): (r: Option<JsNumber>)
    ensures r.None? <==> IsEmptyValue(v) || ToJsNumber(v, parse).IsNaN()
    ensures r.Some? ==> r.value == ToJsNumber(v, parse) && !r.value.IsNaN()
  {
    if IsEmptyValue(v) then None
    else
      var parsed := ToJsNumber(v, parse);
      if parsed.IsNaN() then None else Some(parsed)
  }

  /** `null` is missing rather than 0, and a number passes through unless it is NaN. */
  lemma ToOptionalNumberOnNumbers(n: JsNumber, parse: string -> JsNumber)
    ensures ToOptionalNumber(Null, parse).None?
    ensures ToOptionalNumber(Num(n), parse) == (if n.NaN? then None else Some(n))
  {
  }

  /** The severity `submitRoadIssue` passes on: `input.severity ?? 'medium'` is tested
      against the three levels, but the original value is forwarded. So `undefined` and
      `null` pass the test and are forwarded as they are; a level is kept; any other string,
      and a number, becomes `medium`. */
  function NormalizeSeverity(severity: FormValue): (r: SeverityArg)
    ensures r.Unset? <==> severity.Undefined?
    ensures r.NullLevel? <==> severity.Null?
    ensures severity.Str? && ParseSeverity(severity.s).Some? ==> r == Level(ParseSeverity(severity.s).value)
    ensures severity.Num? || (severity.Str? && ParseSeverity(severity.s).None?) ==> r == Level(Medium)
  {
    match severity
    case Undefined => Unset
    case Null => NullLevel
    case Num(_) => Level(Medium)
    case Str(s) =>
      match ParseSeverity(s)
      case Some(level) => Level(level)
      case None => Level(Medium)
  }

  /** A forwarded level names itself: a level's own name normalises to that level, and a
      request that names a level keeps it. */
  lemma NormalizeSeverityStored(severity: FormValue)
    ensures NormalizeSeverity(severity).Level? ==>
      NormalizeSeverity(Str(SeverityName(NormalizeSeverity(severity).level))) == NormalizeSeverity(severity)
    ensures NormalizeSeverity(severity).Level? && severity.Str? && ParseSeverity(severity.s).Some? ==>
      SeverityName(NormalizeSeverity(severity).level) == severity.s
  {
    var r := NormalizeSeverity(severity);
    if r.Level? {
      SeverityRoundTrip(r.level);
    }
  }

  /** The integer a stored id column receives from an optional number; a fraction or an
      infinity (which the table could not hold) is taken as no value. */
  function OptionalId(n: Option<JsNumber>): (r: Option<int>)
    ensures r.Some? ==> n.Some? && n.value.Finite? && r.value as real == n.value.value
    ensures n.Some? && IntegralValue(n.value).Some? ==> r == IntegralValue(n.value)
  {
    match n
    case None => None
    case Some(x) => IntegralValue(x)
  }

  /** The real a stored coordinate receives from an optional number; an infinity is taken
      as no value. */
  function OptionalCoordinate(n: Option<JsNumber>): (r: Option<real>)
    ensures r.Some? <==> n.Some? && n.value.Finite?
    ensures r.Some? ==> r.value == n.value.value
  {
    match n
    case Some(Finite(x)) => Some(x)
    case _ => None
  }

  /** `getCurrentRun`: the caller's run for `today`. */
  function GetCurrentRun(locals: Locals, runs: seq<RouteRun>, stops: seq<RouteStop>, today: string): (r: Result<Option<AssignedRun>>)
    ensures locals.user.None? <==> r == Err(HttpError(401, "You need to sign in."))
    ensures r.Ok? ==> r.value == GetAssignedRun(runs, stops, locals.user.value.id, today)
  {
    var user :- RequireUser(locals);
    Ok(GetAssignedRun(runs, stops, user.id, today))
  }

  /** A driver's current run is never another driver's run, and has no other run's stops. */
  lemma CurrentRunIsOwn(locals: Locals, runs: seq<RouteRun>, stops: seq<RouteStop>, today: string)
    requires locals.user.Some?
    ensures var r := GetCurrentRun(locals, runs, stops, today);
      r.Ok? && r.value.Some? ==>
        && r.value.value.run.driverUserId == Some(locals.user.value.id)
        && r.value.value.run.runDate == today
        && forall s :: s in r.value.value.stops ==> s.routeRunId == r.value.value.run.id
  {
    GetAssignedRunIsNewestOpenRun(runs, stops, locals.user.value.id, today);
    GetAssignedRunStops(runs, stops, locals.user.value.id, today);
  }

  /** The body of `submitStop`. */
  datatype StopInput = StopInput(runId: FormValue, stopId: FormValue, status: string, notes: Option<string>)

  /** No run and no stop has id 0, the key of an id that is not a positive integer. */
  lemma NoRowHasKeyZero(db: Store, runId: int, stopId: int)
    requires db.Valid()
    ensures FindRun(db.runs, 0).None?
    ensures FindStop(db.stops, 0, runId).None?
  {
    assert forall i :: 0 <= i < |db.runs| ==> db.runs[i].id != 0;
    assert forall i :: 0 <= i < |db.stops| ==> db.stops[i].id != 0;
  }

  /** `submitStop`: the caller's id and `Number(...)` of the two ids go to
      `submitStopUpdate`. A run id that is NaN, fractional or not positive finds no run. */
  method SubmitStop(db: Store, locals: Locals, input: StopInput, parse: string -> JsNumber, now: int)
    returns (r: Result<RouteStop>)
    requires db.Valid()
    modifies db`stops, db`runs, db`events, db`nextEventId
    ensures db.Valid()
    ensures locals.user.None? ==> r == Err(HttpError(401, "You need to sign in.")) && Untouched(db)
    ensures locals.user.Some? && ParseStopStatus(input.status).Some? && RowKey(ToJsNumber(input.runId, parse)) == 0 ==>
      r == Err(HttpError(404, "Route run not found")) && Untouched(db)
    ensures r.Ok? ==>
      && locals.user.Some?
      && r.value.id == RowKey(ToJsNumber(input.stopId, parse)) && r.value.id >= 1
      && r.value.routeRunId == RowKey(ToJsNumber(input.runId, parse))
      && ParseStopStatus(input.status) == Some(r.value.status)
      && |db.events| == |old(db.events)| + 1
      && db.events[|db.events| - 1].driverUserId == locals.user.value.id
  {
    if locals.user.None? {
      return Err(HttpError(401, "You need to sign in."));
    }
    var runId := RowKey(ToJsNumber(input.runId, parse));
    var stopId := RowKey(ToJsNumber(input.stopId, parse));
    NoRowHasKeyZero(db, runId, stopId);
    r := SubmitStopUpdate(db, locals.user.value.id, runId, stopId, input.status, input.notes, now);
  }

  /** The body of `submitRoadIssue`. */
  datatype RoadIssueInput = RoadIssueInput(
    runId: FormValue,
    zoneId: FormValue,
    severity: FormValue,
    description: string,
    latitude: FormValue,
    longitude: FormValue)

  /** `submitRoadIssue`: the caller's id, the optional numbers and the normalised severity
      go to `submitRoadConditionIssue`. */
  method SubmitRoadIssue(db: Store, locals: Locals, input: RoadIssueInput, parse: string -> JsNumber)
    returns (r: Result<RoadConditionReport>)
    requires db.Valid()
    modifies db`roadIssues, db`nextRoadIssueId, db`events, db`nextEventId
    ensures db.Valid()
    ensures r.Err? ==> db.roadIssues == old(db.roadIssues) && db.events == old(db.events)
    ensures locals.user.None? ==> r == Err(HttpError(401, "You need to sign in."))
    ensures locals.user.Some? && !IsBlank(input.description) && input.severity.Null? ==>
      r == Err(Internal(SeverityNotNull))
    ensures r.Ok? ==>
      && locals.user.Some?
      && !input.severity.Null?
      && r.value.reporterUserId == locals.user.value.id
      && r.value.severity == (if input.severity.Undefined? then Medium else NormalizeSeverity(input.severity).level)
      && r.value.zoneId == OptionalId(ToOptionalNumber(input.zoneId, parse))
      && r.value.latitude == OptionalCoordinate(ToOptionalNumber(input.latitude, parse))
      && r.value.longitude == OptionalCoordinate(ToOptionalNumber(input.longitude, parse))
      && db.roadIssues == old(db.roadIssues) + [r.value]
      && db.events == old(db.events) + [DriverEvent(old(db.nextEventId), OptionalId(ToOptionalNumber(input.runId, parse)),
                                                    locals.user.value.id, "road_condition_report",
                                                    RoadConditionPayload(r.value.id, if input.severity.Undefined? then None
                                                                                     else Some(r.value.severity)))]
  {
    if locals.user.None? {
      return Err(HttpError(401, "You need to sign in."));
    }
    r := SubmitRoadConditionIssue(db, locals.user.value.id, OptionalId(ToOptionalNumber(input.runId, parse)),
                                  OptionalId(ToOptionalNumber(input.zoneId, parse)), NormalizeSeverity(input.severity),
                                  input.description, OptionalCoordinate(ToOptionalNumber(input.latitude, parse)),
                                  OptionalCoordinate(ToOptionalNumber(input.longitude, parse)));
  }
}
