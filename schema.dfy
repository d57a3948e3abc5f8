/** The rows and enumerations of the relational schema (src/lib/server/db/schema.ts):
    only the fields the core reads or writes. Identifiers are the tables' integer
    primary keys; user ids are the auth library's strings; times are milliseconds. */
module Schema {
  import opened Wrappers

  type UserId = string

  /** citizen_report.status */
  datatype ReportStatus = Open | InReview | Resolved | Rejected

  /** citizen_report.category */
  datatype Category = Uncollected | IllegalDumping | OverflowingBin | Other

  /** route_stop.status */
  datatype StopStatus = Pending | Done | Skipped

  /** route_run.status */
  datatype RunStatus = Planned | InProgress | Completed | Blocked

  /** user_role.role */
  datatype Role = Citizen | Driver | Admin

  /** road_condition_report.severity */
  datatype Severity = Low | Medium | High

  function ReportStatusName(s: ReportStatus): string {
    match s
    case Open => "open"
    case InReview => "in_review"
    case Resolved => "resolved"
    case Rejected => "rejected"
  }

  /** `reportStatuses.includes(s)`, giving the enumeration value. */
  function ParseReportStatus(s: string): (r: Option<ReportStatus>)
    ensures r.Some? ==> ReportStatusName(r.value) == s
  {
    if s == "open" then Some(Open)
    else if s == "in_review" then Some(InReview)
    else if s == "resolved" then Some(Resolved)
    else if s == "rejected" then Some(Rejected)
    else None
  }

  lemma ReportStatusRoundTrip(s: ReportStatus)
    ensures ParseReportStatus(ReportStatusName(s)) == Some(s)
  {
  }

  function CategoryName(c: Category): string {
    match c
    case Uncollected => "uncollected"
    case IllegalDumping => "illegal_dumping"
    case OverflowingBin => "overflowing_bin"
    case Other => "other"
  }

  function ParseCategory(s: string): (r: Option<Category>)
    ensures r.Some? ==> CategoryName(r.value) == s
  {
    if s == "uncollected" then Some(Uncollected)
    else if s == "illegal_dumping" then Some(IllegalDumping)
    else if s == "overflowing_bin" then Some(OverflowingBin)
    else if s == "other" then Some(Other)
    else None
  }

  lemma CategoryRoundTrip(c: Category)
    ensures ParseCategory(CategoryName(c)) == Some(c)
  {
  }

  function StopStatusName(s: StopStatus): string {
    match s
    case Pending => "pending"
    case Done => "done"
    case Skipped => "skipped"
  }

  function ParseStopStatus(s: string): (r: Option<StopStatus>)
    ensures r.Some? ==> StopStatusName(r.value) == s
  {
    if s == "pending" then Some(Pending)
    else if s == "done" then Some(Done)
    else if s == "skipped" then Some(Skipped)
    else None
  }

  lemma StopStatusRoundTrip(s: StopStatus)
    ensures ParseStopStatus(StopStatusName(s)) == Some(s)
  {
  }

  function SeverityName(s: Severity): string {
    match s
    case Low => "low"
    case Medium => "medium"
    case High => "high"
  }

  function ParseSeverity(s: string): (r: Option<Severity>)
    ensures r.Some? ==> SeverityName(r.value) == s
  {
    if s == "low" then Some(Low)
    else if s == "medium" then Some(Medium)
    else if s == "high" then Some(High)
    else None
  }

  lemma SeverityRoundTrip(s: Severity)
    ensures ParseSeverity(SeverityName(s)) == Some(s)
  {
  }

  /** The severity handed to `submitRoadConditionIssue`: left `undefined`, an explicit
      `null`, or a level. */
  datatype SeverityArg = Unset | NullLevel | Level(level: Severity)

  datatype Zone = Zone(id: int, wardId: int, name: string)

  datatype DriverProfile = DriverProfile(id: int, userId: UserId, active: bool)

  datatype UserRoleRow = UserRoleRow(id: int, userId: UserId, role: Role)

  datatype CitizenReport = CitizenReport(
    id: int,
    reporterUserId: UserId,
    zoneId: Option<int>,
    category: Category,
    description: string,
    latitude: real,
    longitude: real,
    status: ReportStatus,
    createdAt: int,
    updatedAt: int)

  datatype ReportPhoto = ReportPhoto(id: int, reportId: int, objectKey: string, publicUrl: string)

  /** waste_forecast; confidence is kept in hundredths. */
  datatype WasteForecast = WasteForecast(
    id: int,
    zoneId: int,
    forecastDate: string,
    predictedVolumeKg: int,
    confidencePct: int,
    createdAt: int)

  datatype RouteRun = RouteRun(
    id: int,
    runDate: string,
    wardId: Option<int>,
    driverUserId: Option<UserId>,
    status: RunStatus,
    plannedDistanceKm: real,
    startedAt: Option<int>,
    completedAt: Option<int>,
    createdAt: int,
    updatedAt: int)

  datatype RouteStop = RouteStop(
    id: int,
    routeRunId: int,
    zoneId: Option<int>,
    sourceReportId: Option<int>,
    sequence: int,
    latitude: real,
    longitude: real,
    action: string,
    status: StopStatus,
    notes: Option<string>,
    completedAt: Option<int>,
    createdAt: int,
    updatedAt: int)

  /** The JSON payload of a driver_event_log row, kept as a value. */
  datatype EventPayload =
    | StopUpdatePayload(stopId: int, status: StopStatus, notes: Option<string>)
    | RoadConditionPayload(roadConditionReportId: int, severity: Option<Severity>)

  datatype DriverEvent = DriverEvent(
    id: int,
    routeRunId: Option<int>,
    driverUserId: UserId,
    eventType: string,
    payload: EventPayload)

  datatype RoadConditionReport = RoadConditionReport(
    id: int,
    reporterUserId: UserId,
    zoneId: Option<int>,
    severity: Severity,
    description: string,
    latitude: Option<real>,
    longitude: Option<real>)
}
