/** The citizen's remote functions (src/lib/api/citizen-reports.remote.ts): reading the
    report form, listing the caller's reports, and the checks in front of viewing, editing and
    deleting one report. */
module CitizenReportsApi {
  import opened Wrappers
  import opened Schema
  import opened Db
  import opened Js
  import opened Authz
  import opened Storage
  import opened Reporting

  /** `toNumber(value, field)`: a required, finite number. */
  function ToNumber(v: FormValue, field: string, parse: string -> JsNumber): (r: Result<real>)
    ensures IsEmptyValue(v) ==> r == Err(HttpError(400, field + " is required"))
    ensures !IsEmptyValue(v) && !ToJsNumber(v, parse).IsFinite() ==> r == Err(HttpError(400, field + " must be a number"))
    ensures r.Ok? <==> !IsEmptyValue(v) && ToJsNumber(v, parse).IsFinite()
    ensures r.Ok? ==> Finite(r.value) == ToJsNumber(v, parse)
  {
    if IsEmptyValue(v) then Err(HttpError(400, field + " is required"))
    else
      var parsed := ToJsNumber(v, parse);
      if !parsed.IsFinite() then Err(HttpError(400, field + " must be a number"))
      else Ok(parsed.value)
  }

  /** A finite number sent as a number comes back unchanged; `null` counts as missing even
      though `Number(null)` is 0; NaN and the infinities are refused. */
  lemma ToNumberOnNumbers(x: real, field: string, parse: string -> JsNumber)
    ensures ToNumber(Num(Finite(x)), field, parse) == Ok(x)
    ensures ToNumber(Null, field, parse).Err?
    ensures ToNumber(Num(NaN), field, parse) == Err(HttpError(400, field + " must be a number"))
    ensures ToNumber(Num(PosInfinity), field, parse).Err? && ToNumber(Num(NegInfinity), field, parse).Err?
  {
  }

  /** The fields of the report form. `photoObjectKey` and `photoPublicUrl` are `None` when
      they are absent or not strings; `photo` is the file `readSingleFile` picked, if any. */
  datatype ReportForm = ReportForm(
    category: Option<string>,
    description: Option<string>,
    latitude: FormValue,
    longitude: FormValue,
    zoneId: FormValue,
    photo: Option<PhotoFile>,
    photoObjectKey: Option<string>,
    photoPublicUrl: Option<string>)

  /** A zone id the zone table could hold: an integral number, else none. */
  function ZoneIdOf(x: real): (z: Option<int>)
    ensures z.Some? <==> x == x.Floor as real
    ensures z.Some? ==> z.value as real == x
  {
    IntegralValue(Finite(x))
  }

  /** The pre-uploaded photo, taken only when both its key and its URL are non-empty strings. */
  function UploadedPhotoOf(form: ReportForm): (p: Option<StoredPhoto>)
    ensures p.Some? <==> form.photoObjectKey.Some? && form.photoObjectKey.value != ""
                         && form.photoPublicUrl.Some? && form.photoPublicUrl.value != ""
    ensures p.Some? ==> p.value == StoredPhoto(form.photoObjectKey.value, form.photoPublicUrl.value)
  {
    match (form.photoObjectKey, form.photoPublicUrl)
    case (Some(key), Some(url)) => if key != "" && url != "" then Some(StoredPhoto(key, url)) else None
    case _ => None
  }

  /** The input `createReport` builds for `createCitizenReport`, field by field in the order
      the object literal evaluates them. */
  function CreateReportInputOf(locals: Locals, form: ReportForm, parse: string -> JsNumber): (r: Result<CreateReportInput>)
    ensures locals.user.None? ==> r == Err(HttpError(401, "You need to sign in."))
    ensures locals.user.Some? && ToNumber(form.latitude, "latitude", parse).Err? ==>
      r == Err(ToNumber(form.latitude, "latitude", parse).failure)
    ensures locals.user.Some? && ToNumber(form.latitude, "latitude", parse).Ok? && ToNumber(form.longitude, "longitude", parse).Err? ==>
      r == Err(ToNumber(form.longitude, "longitude", parse).failure)
    ensures locals.user.Some? && ToNumber(form.latitude, "latitude", parse).Ok? && ToNumber(form.longitude, "longitude", parse).Ok?
            && !IsEmptyValue(form.zoneId) && ToNumber(form.zoneId, "zoneId", parse).Err? ==>
      r == Err(ToNumber(form.zoneId, "zoneId", parse).failure)
    ensures r.Ok? <==>
      && locals.user.Some?
      && ToNumber(form.latitude, "latitude", parse).Ok?
      && ToNumber(form.longitude, "longitude", parse).Ok?
      && (IsEmptyValue(form.zoneId) || ToNumber(form.zoneId, "zoneId", parse).Ok?)
    ensures r.Ok? ==>
      && r.value.reporterUserId == locals.user.value.id
      && r.value.category == form.category.GetOr("uncollected")
      && r.value.description == form.description.GetOr("")
      && r.value.latitude == ToNumber(form.latitude, "latitude", parse).value
      && r.value.longitude == ToNumber(form.longitude, "longitude", parse).value
      && (IsEmptyValue(form.zoneId) ==> r.value.zoneId.None?)
      && (!IsEmptyValue(form.zoneId) ==> r.value.zoneId == ZoneIdOf(ToNumber(form.zoneId, "zoneId", parse).value))
      && r.value.photo == form.photo
      && r.value.uploadedPhoto == UploadedPhotoOf(form)
  {
    var user :- RequireUser(locals);
    var latitude :- ToNumber(form.latitude, "latitude", parse);
    var longitude :- ToNumber(form.longitude, "longitude", parse);
    var zoneId :-
      if IsEmptyValue(form.zoneId) then Ok(None)
      else
        var z :- ToNumber(form.zoneId, "zoneId", parse);
        Ok(ZoneIdOf(z));
    Ok(CreateReportInput(user.id, form.category.GetOr("uncollected"), form.description.GetOr(""),
                         latitude, longitude, zoneId, form.photo, UploadedPhotoOf(form)))
  }

  /** A form carrying a pre-uploaded photo has that photo attached and uploads nothing; a
      form with neither a photo key nor a file is refused for want of a photo. */
  lemma FormPhotoChoice(locals: Locals, form: ReportForm, parse: string -> JsNumber, env: StorageEnv, time: nat,
                        uuid: string, putResult: Result<()>)
    requires CreateReportInputOf(locals, form, parse).Ok?
    ensures var input := CreateReportInputOf(locals, form, parse).value;
      && (UploadedPhotoOf(form).Some? ==> PhotoToAttach(input, env, time, uuid, putResult) == Ok(UploadedPhotoOf(form).value))
      && (UploadedPhotoOf(form).None? && form.photo.None? ==>
            PhotoToAttach(input, env, time, uuid, putResult) == Err(HttpError(400, "A photo is required")))
  {
  }

  /** `createReport`: the form read as above, then `createCitizenReport`. */
  method CreateReport(db: Store, locals: Locals, form: ReportForm, parse: string -> JsNumber, env: StorageEnv,
                      time: nat, uuid: string, putResult: Result<()>, now: int)
    returns (r: Result<ReportWithPhoto>)
    requires db.Valid()
    modifies db`reports, db`nextReportId, db`photos, db`nextPhotoId
    ensures db.Valid()
    ensures CreateReportInputOf(locals, form, parse).Err? ==>
      r == Err(CreateReportInputOf(locals, form, parse).failure)
      && db.reports == old(db.reports) && db.photos == old(db.photos)
    ensures r.Ok? ==>
      && locals.user.Some? && r.value.reporterUserId == locals.user.value.id
      && r.value.status == Open && r.value.photoUrl.Some?
      && db.reports == old(db.reports) + [ReportOf(r.value)]
      && |db.photos| == |old(db.photos)| + 1
    ensures r.Err? ==> db.photos == old(db.photos)
  {
    var input := CreateReportInputOf(locals, form, parse);
    if input.Err? {
      return Err(input.failure);
    }
    r := CreateCitizenReport(db, input.value, env, time, uuid, putResult, now);
  }

  /** `listMyReports`. */
  function ListMyReports(locals: Locals, reports: seq<CitizenReport>, photos: seq<ReportPhoto>): (r: Result<seq<ReportWithPhoto>>)
    ensures locals.user.None? <==> r == Err(HttpError(401, "You need to sign in."))
    ensures r.Ok? ==> r.value == ListReportsByUser(reports, photos, locals.user.value.id)
  {
    var user :- RequireUser(locals);
    Ok(ListReportsByUser(reports, photos, user.id))
  }

  /** A signed-in user sees only their own reports, and all of them. */
  lemma ListMyReportsOwnOnly(locals: Locals, reports: seq<CitizenReport>, photos: seq<ReportPhoto>)
    requires locals.user.Some?
    ensures var r := ListMyReports(locals, reports, photos);
      && r.Ok?
      && (forall v :: v in r.value ==> v.reporterUserId == locals.user.value.id)
      && (forall x :: x in reports && x.reporterUserId == locals.user.value.id ==> exists v :: v in r.value && ReportOf(v) == x)
  {
    var uid := locals.user.value.id;
    ListReportsByUserSpec(reports, photos, uid);
    forall x | x in reports && x.reporterUserId == uid
      ensures exists v :: v in ListReportsByUser(reports, photos, uid) && ReportOf(v) == x
    {
      var ps := PhotosOf(photos, x.id);
      var row := if ps == [] then JoinedRow(x, None) else JoinedRow(x, Some(ps[0]));
      assert PhotoMatches(photos, row);
      assert ToReportWithPhoto(row) in ListReportsByUser(reports, photos, uid);
    }
  }

  // ----- reportDetail, updateMyReport, deleteMyReport -----

  /** What the caller asks to do with one report. */
  datatype Access = View | Update | Delete

  function ForbiddenMessage(a: Access): string {
    match a
    case View => "Not allowed to view this report"
    case Update => "Not allowed to update this report"
    case Delete => "Not allowed to delete this report"
  }

  function NotEditableMessage(a: Access): string {
    match a
    case View => ""
    case Update => "Only open/rejected reports can be edited"
    case Delete => "Only open/rejected reports can be deleted"
  }

  /** `event.locals.role !== 'admin'` fails only for an admin. */
  predicate IsAdmin(locals: Locals) {
    locals.role == Some(Admin)
  }

  /** Only open and rejected reports are the reporter's to edit or delete. */
  predicate IsEditable(status: ReportStatus) {
    status == Open || status == Rejected
  }

  /** The id `Number(input.reportId)` reaches the query with. */
  function ReportKey(reportId: FormValue, parse: string -> JsNumber): int {
    RowKey(ToJsNumber(reportId, parse))
  }

  /** The checks of `reportDetail` (View), `updateMyReport` (Update) and `deleteMyReport`
      (Delete), giving the report the action may go ahead on. */
  function CheckReportAccess(locals: Locals, reports: seq<CitizenReport>, photos: seq<ReportPhoto>,
                             reportId: FormValue, parse: string -> JsNumber, access: Access): (r: Result<ReportWithPhoto>)
    ensures locals.user.None? ==> r == Err(HttpError(401, "You need to sign in."))
    ensures var found := GetReportById(reports, photos, ReportKey(reportId, parse));
      locals.user.Some? && found.None? ==> r == Err(HttpError(404, "Report not found"))
    ensures var found := GetReportById(reports, photos, ReportKey(reportId, parse));
      locals.user.Some? && found.Some? && found.value.reporterUserId != locals.user.value.id && !IsAdmin(locals) ==>
        r == Err(HttpError(403, ForbiddenMessage(access)))
    ensures var found := GetReportById(reports, photos, ReportKey(reportId, parse));
      locals.user.Some? && found.Some? && found.value.reporterUserId == locals.user.value.id && !IsAdmin(locals)
      && access != View && !IsEditable(found.value.status) ==>
        r == Err(HttpError(400, NotEditableMessage(access)))
    ensures r.Ok? <==>
      var found := GetReportById(reports, photos, ReportKey(reportId, parse));
      && locals.user.Some? && found.Some?
      && (found.value.reporterUserId == locals.user.value.id || IsAdmin(locals))
      && (access == View || IsEditable(found.value.status) || IsAdmin(locals))
    ensures r.Ok? ==> Some(r.value) == GetReportById(reports, photos, ReportKey(reportId, parse))
  {
    var user :- RequireUser(locals);
    match GetReportById(reports, photos, ReportKey(reportId, parse))
    case None => Err(HttpError(404, "Report not found"))
    case Some(report) =>
      if report.reporterUserId != user.id && !IsAdmin(locals) then Err(HttpError(403, ForbiddenMessage(access)))
      else if access != View && !IsEditable(report.status) && !IsAdmin(locals) then
        Err(HttpError(400, NotEditableMessage(access)))
      else Ok(report)
  }

  /** `reportDetail`. */
  function ReportDetail(locals: Locals, reports: seq<CitizenReport>, photos: seq<ReportPhoto>,
                        reportId: FormValue, parse: string -> JsNumber): (r: Result<ReportWithPhoto>)
    ensures locals.user.None? ==> r == Err(HttpError(401, "You need to sign in."))
    ensures var found := GetReportById(reports, photos, ReportKey(reportId, parse));
      locals.user.Some? && found.None? ==> r == Err(HttpError(404, "Report not found"))
    ensures var found := GetReportById(reports, photos, ReportKey(reportId, parse));
      locals.user.Some? && found.Some? && found.value.reporterUserId != locals.user.value.id && !IsAdmin(locals) ==>
        r == Err(HttpError(403, "Not allowed to view this report"))
    ensures r.Ok? <==>
      var found := GetReportById(reports, photos, ReportKey(reportId, parse));
      locals.user.Some? && found.Some? && (found.value.reporterUserId == locals.user.value.id || IsAdmin(locals))
    ensures r.Ok? ==> Some(r.value) == GetReportById(reports, photos, ReportKey(reportId, parse))
    ensures r.Ok? ==> r.value.id == ReportKey(reportId, parse)
  {
    CheckReportAccess(locals, reports, photos, reportId, parse, View)
  }

  /** Editing and deleting are allowed on exactly the same requests, and each is allowed
      only where viewing is, on the same report. An admin may do all three to any report, and
      a report id that is not a positive integer is never found. */
  lemma AccessLevels(locals: Locals, reports: seq<CitizenReport>, photos: seq<ReportPhoto>,
                     reportId: FormValue, parse: string -> JsNumber)
    ensures CheckReportAccess(locals, reports, photos, reportId, parse, Update).Ok? <==>
            CheckReportAccess(locals, reports, photos, reportId, parse, Delete).Ok?
    ensures CheckReportAccess(locals, reports, photos, reportId, parse, Update).Ok? ==>
            CheckReportAccess(locals, reports, photos, reportId, parse, View) ==
            CheckReportAccess(locals, reports, photos, reportId, parse, Update)
    ensures locals.user.Some? && IsAdmin(locals) ==>
      (CheckReportAccess(locals, reports, photos, reportId, parse, Update).Ok? <==>
       GetReportById(reports, photos, ReportKey(reportId, parse)).Some?)
  {
  }

  /** Under the report table's id invariant, a request whose id is NaN, fractional or not
      positive is answered 404 once the caller is signed in. */
  lemma BadReportIdNotFound(locals: Locals, reports: seq<CitizenReport>, photos: seq<ReportPhoto>, next: int,
                            reportId: FormValue, parse: string -> JsNumber, access: Access)
    requires ReportIdsOk(reports, next)
    requires locals.user.Some?
    requires ReportKey(reportId, parse) == 0
    ensures CheckReportAccess(locals, reports, photos, reportId, parse, access) == Err(HttpError(404, "Report not found"))
  {
    assert forall x :: x in reports ==> x.id != 0;
  }

  /** A reporter may edit their own report exactly while it is open or rejected. */
  lemma OwnerMayEditWhileEditable(locals: Locals, reports: seq<CitizenReport>, photos: seq<ReportPhoto>, next: int,
                                  x: CitizenReport, parse: string -> JsNumber)
    requires ReportIdsOk(reports, next)
    requires x in reports
    requires locals.user == Some(User(x.reporterUserId)) && !IsAdmin(locals)
    ensures CheckReportAccess(locals, reports, photos, Num(Finite(x.id as real)), parse, Update).Ok? <==> IsEditable(x.status)
  {
    assert ReportKey(Num(Finite(x.id as real)), parse) == x.id;
    GetReportByIdIsTheReport(reports, photos, next, x);
  }
}
