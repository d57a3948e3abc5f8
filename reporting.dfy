/** Citizen reports (src/lib/server/services/reporting.service.ts): creating a report with
    its photo, the listings that join each report with its photos, and the admin's status
    change. */
module Reporting {
  import opened Wrappers
  import opened Schema
  import opened Db
  import opened Sorting
  import opened Text
  import opened Storage

  // ----- normalizeCategory -----

  /** `normalizeCategory(category)`. */
  function NormalizeCategory(category: string): (r: Result<Category>)
    ensures r.Ok? ==> CategoryName(r.value) == category
    ensures r.Err? <==> category !in ["uncollected", "illegal_dumping", "overflowing_bin", "other"]
    ensures r.Err? ==> r == Err(HttpError(400, "Invalid category"))
  {
    match ParseCategory(category)
    case Some(c) => Ok(c)
    case None => Err(HttpError(400, "Invalid category"))
  }

  /** Every category's own name is accepted as that category. */
  lemma NormalizeCategoryRoundTrip(c: Category)
    ensures NormalizeCategory(CategoryName(c)) == Ok(c)
  {
    CategoryRoundTrip(c);
  }

  // ----- the report and photo left join -----

  /** One row of `citizen_report LEFT JOIN report_photo ON report_id = id`. */
  datatype JoinedRow = JoinedRow(report: CitizenReport, photo: Option<ReportPhoto>)

  /** The joined rows the left join yields: a report with each photo of it, or with no photo
      when it has none. */
  predicate PhotoMatches(photos: seq<ReportPhoto>, row: JoinedRow) {
    match row.photo
    case Some(p) => p in photos && p.reportId == row.report.id
    case None => forall p :: p in photos ==> p.reportId != row.report.id
  }

  /** `ReportWithPhoto`. */
  datatype ReportWithPhoto = ReportWithPhoto(
    id: int,
    reporterUserId: UserId,
    category: Category,
    description: string,
    status: ReportStatus,
    latitude: real,
    longitude: real,
    zoneId: Option<int>,
    createdAt: int,
    updatedAt: int,
    photoUrl: Option<string>)

  /** The report columns of a `ReportWithPhoto`. */
  function ReportOf(v: ReportWithPhoto): CitizenReport {
    CitizenReport(v.id, v.reporterUserId, v.zoneId, v.category, v.description, v.latitude, v.longitude,
                  v.status, v.createdAt, v.updatedAt)
  }

  /** `toReportWithPhoto(row)`: every report column is kept and the photo contributes its
      public URL, or null. */
  function ToReportWithPhoto(row: JoinedRow): (v: ReportWithPhoto)
    ensures ReportOf(v) == row.report
    ensures v.photoUrl.Some? <==> row.photo.Some?
    ensures row.photo.Some? ==> v.photoUrl.value == row.photo.value.publicUrl
  {
    var r := row.report;
    ReportWithPhoto(r.id, r.reporterUserId, r.category, r.description, r.status, r.latitude, r.longitude,
                    r.zoneId, r.createdAt, r.updatedAt,
                    match row.photo case Some(p) => Some(p.publicUrl) case None => None)
  }

  /** The photos of one report. */
  function PhotosOf(photos: seq<ReportPhoto>, reportId: int): (ps: seq<ReportPhoto>)
    ensures forall p :: p in ps <==> p in photos && p.reportId == reportId
  {
    if photos == [] then []
    else (if photos[0].reportId == reportId then [photos[0]] else []) + PhotosOf(photos[1..], reportId)
  }

  function WithPhotos(report: CitizenReport, ps: seq<ReportPhoto>): (rows: seq<JoinedRow>)
    ensures forall row :: row in rows <==> row.report == report && row.photo.Some? && row.photo.value in ps
  {
    if ps == [] then [] else [JoinedRow(report, Some(ps[0]))] + WithPhotos(report, ps[1..])
  }

  /** The joined rows of one report. */
  function JoinReport(report: CitizenReport, photos: seq<ReportPhoto>): (rows: seq<JoinedRow>)
    ensures forall row :: row in rows <==> row.report == report && PhotoMatches(photos, row)
  {
    var ps := PhotosOf(photos, report.id);
    if ps == [] then
      assert forall p :: p in photos ==> p.reportId != report.id by {
        forall p | p in photos ensures p.reportId != report.id {
          assert p !in ps;
        }
      }
      [JoinedRow(report, None)]
    else
      WithPhotos(report, ps)
  }

  /** `citizen_report LEFT JOIN report_photo`. */
  function LeftJoin(reports: seq<CitizenReport>, photos: seq<ReportPhoto>): (rows: seq<JoinedRow>)
    ensures forall row :: row in rows <==> row.report in reports && PhotoMatches(photos, row)
  {
    if reports == [] then [] else JoinReport(reports[0], photos) + LeftJoin(reports[1..], photos)
  }

  // ----- the listings -----

  /** `ORDER BY created_at DESC`. */
  predicate NewerReportFirst(a: JoinedRow, b: JoinedRow) {
    a.report.createdAt >= b.report.createdAt
  }

  function Views(rows: seq<JoinedRow>): (vs: seq<ReportWithPhoto>)
    ensures |vs| == |rows|
    ensures forall i :: 0 <= i < |rows| ==> vs[i] == ToReportWithPhoto(rows[i])
  {
    seq(|rows|, i requires 0 <= i < |rows| => ToReportWithPhoto(rows[i]))
  }

  /** The joined rows newest first, as `ReportWithPhoto`s. */
  function Listing(rows: seq<JoinedRow>): seq<ReportWithPhoto> {
    Views(SortBy(rows, NewerReportFirst))
  }

  /** A listing holds the view of every joined row and nothing else, newest first. */
  lemma ListingSpec(rows: seq<JoinedRow>)
    ensures forall row :: row in rows ==> ToReportWithPhoto(row) in Listing(rows)
    ensures forall v :: v in Listing(rows) ==> exists row :: row in rows && v == ToReportWithPhoto(row)
    ensures var l := Listing(rows); forall i, j :: 0 <= i < j < |l| ==> l[i].createdAt >= l[j].createdAt
  {
    var sorted := SortBy(rows, NewerReportFirst);
    var l := Views(sorted);
    ListingMembers(rows, sorted, l);
    ListingNewestFirst(rows, sorted, l);
  }

  lemma ListingMembers(rows: seq<JoinedRow>, sorted: seq<JoinedRow>, l: seq<ReportWithPhoto>)
    requires multiset(sorted) == multiset(rows) && l == Views(sorted)
    ensures forall row :: row in rows ==> ToReportWithPhoto(row) in l
    ensures forall v :: v in l ==> exists row :: row in rows && v == ToReportWithPhoto(row)
  {
    forall row | row in rows ensures ToReportWithPhoto(row) in l {
      assert row in multiset(sorted);
      var i :| 0 <= i < |sorted| && sorted[i] == row;
      assert l[i] == ToReportWithPhoto(row);
    }
    forall v | v in l ensures exists row :: row in rows && v == ToReportWithPhoto(row) {
      var i :| 0 <= i < |l| && l[i] == v;
      assert sorted[i] in multiset(rows);
    }
  }

  lemma ListingNewestFirst(rows: seq<JoinedRow>, sorted: seq<JoinedRow>, l: seq<ReportWithPhoto>)
    requires sorted == SortBy(rows, NewerReportFirst) && l == Views(sorted)
    ensures forall i, j :: 0 <= i < j < |l| ==> l[i].createdAt >= l[j].createdAt
  {
    assert TotalPreorder(NewerReportFirst);
    SortBySorted(rows, NewerReportFirst);
    forall i, j | 0 <= i < j < |l| ensures l[i].createdAt >= l[j].createdAt {
      assert NewerReportFirst(sorted[i], sorted[j]);
    }
  }

  /** `WHERE reporter_user_id = userId`. */
  function ReportsOf(reports: seq<CitizenReport>, userId: UserId): (rs: seq<CitizenReport>)
    ensures forall r :: r in rs <==> r in reports && r.reporterUserId == userId
  {
    if reports == [] then []
    else (if reports[0].reporterUserId == userId then [reports[0]] else []) + ReportsOf(reports[1..], userId)
  }

  predicate IsOpenReport(r: CitizenReport) {
    r.status == Open || r.status == InReview
  }

  /** `WHERE status IN ('open', 'in_review')`. */
  function OpenReports(reports: seq<CitizenReport>): (rs: seq<CitizenReport>)
    ensures forall r :: r in rs <==> r in reports && IsOpenReport(r)
  {
    if reports == [] then []
    else (if IsOpenReport(reports[0]) then [reports[0]] else []) + OpenReports(reports[1..])
  }

  /** `listReportsByUser(userId)`. */
  function ListReportsByUser(reports: seq<CitizenReport>, photos: seq<ReportPhoto>, userId: UserId): (l: seq<ReportWithPhoto>)
    ensures forall v :: v in l ==> v.reporterUserId == userId
  {
    ListingSpec(LeftJoin(ReportsOf(reports, userId), photos));
    Listing(LeftJoin(ReportsOf(reports, userId), photos))
  }

  /** `listOpenCitizenReports()`. */
  function ListOpenCitizenReports(reports: seq<CitizenReport>, photos: seq<ReportPhoto>): (l: seq<ReportWithPhoto>)
    ensures forall v :: v in l ==> v.status == Open || v.status == InReview
  {
    ListingSpec(LeftJoin(OpenReports(reports), photos));
    Listing(LeftJoin(OpenReports(reports), photos))
  }

  /** A user's listing shows each of the user's reports once per photo (once without a photo
      when it has none), shows nobody else's reports, and is newest first. */
  lemma ListReportsByUserSpec(reports: seq<CitizenReport>, photos: seq<ReportPhoto>, userId: UserId)
    ensures var l := ListReportsByUser(reports, photos, userId);
      forall row: JoinedRow :: row.report in reports && row.report.reporterUserId == userId && PhotoMatches(photos, row) ==>
        ToReportWithPhoto(row) in l
    ensures var l := ListReportsByUser(reports, photos, userId);
      forall v :: v in l ==>
        && v.reporterUserId == userId
        && exists row: JoinedRow :: row.report in reports && PhotoMatches(photos, row) && v == ToReportWithPhoto(row)
    ensures var l := ListReportsByUser(reports, photos, userId);
      forall i, j :: 0 <= i < j < |l| ==> l[i].createdAt >= l[j].createdAt
  {
    var rows := LeftJoin(ReportsOf(reports, userId), photos);
    ListingSpec(rows);
  }

  /** The open listing shows exactly the open and in-review reports with their photos, newest
      first. */
  lemma ListOpenCitizenReportsSpec(reports: seq<CitizenReport>, photos: seq<ReportPhoto>)
    ensures var l := ListOpenCitizenReports(reports, photos);
      forall row: JoinedRow :: row.report in reports && IsOpenReport(row.report) && PhotoMatches(photos, row) ==>
        ToReportWithPhoto(row) in l
    ensures var l := ListOpenCitizenReports(reports, photos);
      forall v :: v in l ==>
        && (v.status == Open || v.status == InReview)
        && exists row: JoinedRow :: row.report in reports && PhotoMatches(photos, row) && v == ToReportWithPhoto(row)
    ensures var l := ListOpenCitizenReports(reports, photos);
      forall i, j :: 0 <= i < j < |l| ==> l[i].createdAt >= l[j].createdAt
  {
    var rows := LeftJoin(OpenReports(reports), photos);
    ListingSpec(rows);
  }

  /** `getReportById(reportId)`: the first joined row of the report, if the report exists. */
  function GetReportById(reports: seq<CitizenReport>, photos: seq<ReportPhoto>, reportId: int): (r: Option<ReportWithPhoto>)
    ensures r.None? <==> forall x :: x in reports ==> x.id != reportId
    ensures r.Some? ==>
      && r.value.id == reportId
      && exists row: JoinedRow :: row.report in reports && PhotoMatches(photos, row) && r.value == ToReportWithPhoto(row)
  {
    var rows := LeftJoin(ReportsWithId(reports, reportId), photos);
    if rows == [] then
      assert forall x :: x in reports ==> x.id != reportId by {
        forall x | x in reports ensures x.id != reportId {
          var ps := PhotosOf(photos, x.id);
          var row := if ps == [] then JoinedRow(x, None) else JoinedRow(x, Some(ps[0]));
          assert PhotoMatches(photos, row);
          assert row !in rows;
        }
      }
      None
    else
      assert rows[0] in rows;
      Some(ToReportWithPhoto(rows[0]))
  }

  /** With unique report ids the report found is the one with that id, and it has a photo
      URL exactly when the report has a photo. */
  lemma GetReportByIdIsTheReport(reports: seq<CitizenReport>, photos: seq<ReportPhoto>, next: int, x: CitizenReport)
    requires ReportIdsOk(reports, next)
    requires x in reports
    ensures var r := GetReportById(reports, photos, x.id);
      && r.Some? && ReportOf(r.value) == x
      && (r.value.photoUrl.None? <==> forall p :: p in photos ==> p.reportId != x.id)
  {
    var r := GetReportById(reports, photos, x.id);
    var row: JoinedRow :| row.report in reports && PhotoMatches(photos, row) && r.value == ToReportWithPhoto(row);
    var i :| 0 <= i < |reports| && reports[i] == row.report;
    var k :| 0 <= k < |reports| && reports[k] == x;
    assert reports[i].id == reports[k].id;
    assert i == k;
  }

  // ----- createCitizenReport -----

  /** `CreateReportInput`. */
  datatype CreateReportInput = CreateReportInput(
    reporterUserId: UserId,
    category: string,
    description: string,
    latitude: real,
    longitude: real,
    zoneId: Option<int>,
    photo: Option<PhotoFile>,
    uploadedPhoto: Option<StoredPhoto>)

  /** The photo `createCitizenReport` attaches: an already uploaded photo with a key, else
      the uploaded file, else none, which is an error. `time`, `uuid` and `putResult` stand
      for what the upload reads from the clock, the id generator and the object store. */
  function PhotoToAttach(input: CreateReportInput, env: StorageEnv, time: nat, uuid: string,
                         putResult: Result<()>): (r: Result<StoredPhoto>)
    ensures input.uploadedPhoto.Some? && input.uploadedPhoto.value.objectKey != "" ==>
      r == Ok(input.uploadedPhoto.value)
    ensures r.Ok? ==> r.value.objectKey != "" || (input.uploadedPhoto.Some? && r == Ok(input.uploadedPhoto.value))
    ensures (input.uploadedPhoto.None? || input.uploadedPhoto.value.objectKey == "") && input.photo.None? ==>
      r == Err(HttpError(400, "A photo is required"))
    ensures (input.uploadedPhoto.None? || input.uploadedPhoto.value.objectKey == "") && input.photo.Some? ==>
      r == UploadReportPhoto(env, input.photo.value, input.reporterUserId, time, uuid, putResult)
  {
    if input.uploadedPhoto.Some? && input.uploadedPhoto.value.objectKey != "" then
      Ok(input.uploadedPhoto.value)
    else if input.photo.Some? then
      var stored := UploadReportPhoto(env, input.photo.value, input.reporterUserId, time, uuid, putResult);
      if stored.Ok? then
        ObjectKeyNotEmpty(input.reporterUserId, NormalizeContentType(input.photo.value.contentType), time, uuid);
        stored
      else stored
    else
      Err(HttpError(400, "A photo is required"))
  }

  lemma ObjectKeyNotEmpty(userId: UserId, contentType: string, time: nat, uuid: string)
    ensures BuildObjectKey(userId, contentType, time, uuid) != ""
  {
    assert BuildObjectKey(userId, contentType, time, uuid)[0] == 'r';
  }

  /** The report row `createCitizenReport` inserts. */
  function NewReport(input: CreateReportInput, category: Category, id: int, now: int): (r: CitizenReport)
    ensures r.status == Open && r.zoneId == input.zoneId && r.category == category
    ensures r.description == Trim(input.description)
    ensures r.description != [] <==> !IsBlank(input.description)
    ensures r.reporterUserId == input.reporterUserId && r.id == id
  {
    TrimEmptyIffBlank(input.description);
    CitizenReport(id, input.reporterUserId, input.zoneId, category, Trim(input.description),
                  input.latitude, input.longitude, Open, now, now)
  }

  /** `createCitizenReport(input)`. The report row is written before the photo is resolved,
      so a missing photo or a failed upload leaves the report behind without a photo. */
  method CreateCitizenReport(db: Store, input: CreateReportInput, env: StorageEnv, time: nat, uuid: string,
                             putResult: Result<()>, now: int)
    returns (r: Result<ReportWithPhoto>)
    requires db.Valid()
    modifies db`reports, db`nextReportId, db`photos, db`nextPhotoId
    ensures db.Valid()
    ensures IsBlank(input.description) ==>
      r == Err(HttpError(400, "Description is required")) && db.reports == old(db.reports) && db.photos == old(db.photos)
    ensures !IsBlank(input.description) && NormalizeCategory(input.category).Err? ==>
      r == Err(HttpError(400, "Invalid category")) && db.reports == old(db.reports) && db.photos == old(db.photos)
    ensures !IsBlank(input.description) && NormalizeCategory(input.category).Ok? ==>
      var report := NewReport(input, NormalizeCategory(input.category).value, old(db.nextReportId), now);
      var photo := PhotoToAttach(input, env, time, uuid, putResult);
      && db.reports == old(db.reports) + [report]
      && (photo.Err? ==> r == Err(photo.failure) && db.photos == old(db.photos))
      && (photo.Ok? ==>
            var row := ReportPhoto(old(db.nextPhotoId), report.id, photo.value.objectKey, photo.value.publicUrl);
            && db.photos == old(db.photos) + [row]
            && r == Ok(ToReportWithPhoto(JoinedRow(report, Some(row)))))
  {
    var description := Trim(input.description);
    TrimEmptyIffBlank(input.description);
    if description == [] {
      return Err(HttpError(400, "Description is required"));
    }
    var category := NormalizeCategory(input.category);
    if category.Err? {
      return Err(category.failure);
    }
    var created := db.InsertReport(input.reporterUserId, category.value, description, input.latitude,
                                   input.longitude, input.zoneId, now);
    var photo := PhotoToAttach(input, env, time, uuid, putResult);
    if photo.Err? {
      return Err(photo.failure);
    }
    var photoRow := db.InsertPhoto(created.id, photo.value.objectKey, photo.value.publicUrl);
    r := Ok(ToReportWithPhoto(JoinedRow(created, Some(photoRow))));
  }

  /** A report created with a photo appears, with that photo's URL, in its reporter's listing
      and, being open, in the open listing. */
  lemma CreatedReportIsListed(reports: seq<CitizenReport>, photos: seq<ReportPhoto>, report: CitizenReport, photo: ReportPhoto)
    requires photo.reportId == report.id && report.status == Open
    ensures var v := ToReportWithPhoto(JoinedRow(report, Some(photo)));
      && v in ListReportsByUser(reports + [report], photos + [photo], report.reporterUserId)
      && v in ListOpenCitizenReports(reports + [report], photos + [photo])
      && v.photoUrl == Some(photo.publicUrl)
  {
    var row := JoinedRow(report, Some(photo));
    assert PhotoMatches(photos + [photo], row);
    assert report in reports + [report];
    ListReportsByUserSpec(reports + [report], photos + [photo], report.reporterUserId);
    ListOpenCitizenReportsSpec(reports + [report], photos + [photo]);
  }

  // ----- resolveCitizenReport -----

  /** The status `resolveCitizenReport` sets: `resolved` by default, and one of the four
      statuses otherwise. */
  function StatusToSet(status: Option<string>): (r: Result<ReportStatus>)
    ensures r.Ok? ==> ReportStatusName(r.value) == status.GetOr("resolved")
    ensures status.None? ==> r == Ok(Resolved)
    ensures r.Err? <==> status.Some? && status.value !in ["open", "in_review", "resolved", "rejected"]
    ensures r.Err? ==> r == Err(HttpError(400, "Invalid status"))
  {
    match ParseReportStatus(status.GetOr("resolved"))
    case Some(s) => Ok(s)
    case None => Err(HttpError(400, "Invalid status"))
  }

  /** An update that matches no row changes nothing; one that matches changes only the
      matching rows, and applying it again changes nothing more. */
  lemma ReportsWithStatusFacts(reports: seq<CitizenReport>, reportId: int, status: ReportStatus, now: int)
    ensures (forall x :: x in reports ==> x.id != reportId) ==> ReportsWithStatus(reports, reportId, status, now) == reports
    ensures var once := ReportsWithStatus(reports, reportId, status, now);
      ReportsWithStatus(once, reportId, status, now) == once
  {
    var once := ReportsWithStatus(reports, reportId, status, now);
    if forall x :: x in reports ==> x.id != reportId {
      forall i | 0 <= i < |reports| ensures once[i] == reports[i] {
        assert reports[i] in reports;
      }
    }
  }

  /** `resolveCitizenReport(reportId, status)`: every row with the id takes the status and
      the time, and the first of them is returned; no such row is a 404 that changes
      nothing. */
  method ResolveCitizenReport(db: Store, reportId: int, status: Option<string>, now: int)
    returns (r: Result<CitizenReport>)
    requires db.Valid()
    modifies db`reports
    ensures db.Valid()
    ensures StatusToSet(status).Err? ==> r == Err(HttpError(400, "Invalid status")) && db.reports == old(db.reports)
    ensures StatusToSet(status).Ok? ==> db.reports == ReportsWithStatus(old(db.reports), reportId, StatusToSet(status).value, now)
    ensures StatusToSet(status).Ok? ==>
      (r == Err(HttpError(404, "Report not found")) <==> forall x :: x in old(db.reports) ==> x.id != reportId)
    ensures r == Err(HttpError(404, "Report not found")) ==> db.reports == old(db.reports)
    ensures r.Ok? ==>
      && r.value in db.reports && r.value.id == reportId
      && r.value.status == StatusToSet(status).value && r.value.updatedAt == now
  {
    var s := StatusToSet(status);
    if s.Err? {
      return Err(s.failure);
    }
    ghost var before := db.reports;
    var updated := db.SetReportStatus(reportId, s.value, now);
    ReportsWithStatusFacts(before, reportId, s.value, now);
    if updated == [] {
      assert forall x :: x in before ==> x.id != reportId by {
        forall x | x in before ensures x.id != reportId {
          var i :| 0 <= i < |before| && before[i] == x;
          assert db.reports[i] in db.reports;
          assert db.reports[i] !in updated;
        }
      }
      return Err(HttpError(404, "Report not found"));
    }
    assert updated[0] in updated;
    var i :| 0 <= i < |db.reports| && db.reports[i] == updated[0];
    r := Ok(updated[0]);
  }

  /** Once a report is resolved or rejected, it leaves the open listing. */
  lemma ClosedReportLeavesOpenList(reports: seq<CitizenReport>, photos: seq<ReportPhoto>, reportId: int,
                                   status: ReportStatus, now: int)
    requires status == Resolved || status == Rejected
    ensures forall v :: v in ListOpenCitizenReports(ReportsWithStatus(reports, reportId, status, now), photos) ==>
      v.id != reportId
  {
    var after := ReportsWithStatus(reports, reportId, status, now);
    ListOpenCitizenReportsSpec(after, photos);
    forall v | v in ListOpenCitizenReports(after, photos) ensures v.id != reportId {
      var row: JoinedRow :| row.report in after && PhotoMatches(photos, row) && v == ToReportWithPhoto(row);
      var i :| 0 <= i < |after| && after[i] == row.report;
    }
  }
}
