/** Daily run generation (src/lib/server/services/optimizer.service.ts): open reports,
    filtered by ward, sorted by zone demand, dealt round-robin to the active drivers, and
    turned into one planned run per non-empty batch with its stops in nearest-neighbour
    order. */
module Optimizer {
  import opened Wrappers
  import opened Schema
  import opened Db
  import opened Sorting
  import opened Geo
  import Forecast

  // ----- estimateDistance -----

  /** The length of the path through `points` in order: the sum of the distances between
      consecutive points (0 for fewer than two). */
  function PathLength(dist: DistanceFn, points: seq<Coord>): (km: real)
    ensures |points| < 2 ==> km == 0.0
  {
    if |points| < 2 then 0.0
    else PathLength(dist, points[..|points| - 1]) + dist(points[|points| - 2], points[|points| - 1])
  }

  /** `estimateDistance(points)`, without the final `toFixed(2)` rounding. */
  method EstimateDistance(dist: DistanceFn, points: seq<Coord>) returns (total: real)
    ensures total == PathLength(dist, points)
  {
    if |points| < 2 {
      return 0.0;
    }
    total := 0.0;
    for i := 1 to |points|
      invariant total == PathLength(dist, points[..i])
    {
      assert points[..i + 1][..i] == points[..i];
      total := total + dist(points[i - 1], points[i]);
    }
    assert points[..|points|] == points;
  }

  /** Adding a point in front adds the distance from it to the old first point. */
  lemma {:induction false} PathLengthCons(dist: DistanceFn, x: Coord, points: seq<Coord>)
    ensures PathLength(dist, [x] + points) == (if points == [] then 0.0 else dist(x, points[0])) + PathLength(dist, points)
    decreases |points|
  {
    if |points| >= 2 {
      var init := points[..|points| - 1];
      PathLengthCons(dist, x, init);
      assert ([x] + points)[..|points|] == [x] + init;
    }
  }

  function Reversed(points: seq<Coord>): (r: seq<Coord>)
    ensures |r| == |points|
    ensures forall i :: 0 <= i < |points| ==> r[i] == points[|points| - 1 - i]
  {
    if points == [] then [] else [points[|points| - 1]] + Reversed(points[..|points| - 1])
  }

  /** With a haversine-like distance, a path is never negative and has the same length
      driven backwards. */
  lemma {:induction false} PathLengthReversed(dist: DistanceFn, points: seq<Coord>)
    requires HaversineLike(dist)
    ensures PathLength(dist, points) >= 0.0
    ensures PathLength(dist, Reversed(points)) == PathLength(dist, points)
    decreases |points|
  {
    if |points| >= 2 {
      var init := points[..|points| - 1];
      var last := points[|points| - 1];
      PathLengthReversed(dist, init);
      assert Reversed(points) == [last] + Reversed(init);
      PathLengthCons(dist, last, Reversed(init));
      assert Reversed(init)[0] == points[|points| - 2];
    }
  }

  // ----- the open reports and the ward filter -----

  /** The zone a report's `zone_id` joins to (`LEFT JOIN zone ON report.zone_id = zone.id`). */
  function ZoneOf(zones: seq<Zone>, zoneId: Option<int>): (z: Option<Zone>)
    ensures z.Some? ==> zoneId == Some(z.value.id) && z.value in zones
    ensures z.None? ==> zoneId.None? || forall i :: 0 <= i < |zones| ==> zones[i].id != zoneId.value
  {
    if zones == [] || zoneId.None? then None
    else if zones[0].id == zoneId.value then Some(zones[0])
    else ZoneOf(zones[1..], zoneId)
  }

  /** `input.wardId` in a condition: present and non-zero. */
  predicate Truthy(wardId: Option<int>) {
    wardId.Some? && wardId.value != 0
  }

  /** The `filteredRows` callback: with a truthy ward filter, a report is kept only when it
      joins to a zone of that ward. */
  function KeptByWard(zones: seq<Zone>, wardId: Option<int>, r: CitizenReport): (kept: bool)
    ensures !Truthy(wardId) ==> kept
    ensures Truthy(wardId) && r.zoneId.None? ==> !kept
    ensures Truthy(wardId) && kept ==> exists z :: z in zones && Some(z.id) == r.zoneId && z.wardId == wardId.value
  {
    !Truthy(wardId) || (ZoneOf(zones, r.zoneId).Some? && ZoneOf(zones, r.zoneId).value.wardId == wardId.value)
  }

  /** The open reports, in table order, that the ward filter keeps. */
  function FilteredReports(reports: seq<CitizenReport>, zones: seq<Zone>, wardId: Option<int>): (rs: seq<CitizenReport>)
    ensures |rs| <= |reports|
    ensures forall r :: r in rs <==> r in reports && r.status == Open && KeptByWard(zones, wardId, r)
  {
    if reports == [] then []
    else
      var init := FilteredReports(reports[..|reports| - 1], zones, wardId);
      var last := reports[|reports| - 1];
      assert reports == reports[..|reports| - 1] + [last];
      if last.status == Open && KeptByWard(zones, wardId, last) then init + [last] else init
  }

  /** Under a ward filter a report without a zone, or in a zone of another ward, is never routed. */
  lemma WardFilterDropsOthers(reports: seq<CitizenReport>, zones: seq<Zone>, w: int, r: CitizenReport)
    requires w != 0
    requires r.zoneId.None? || forall z :: z in zones && Some(z.id) == r.zoneId ==> z.wardId != w
    ensures r !in FilteredReports(reports, zones, Some(w))
  {
  }

  // ----- the drivers -----

  /** The rows one driver profile contributes to `driver_profile INNER JOIN user_role ON
      user_id WHERE active AND role = 'driver'`. */
  function RoleMatches(p: DriverProfile, userRoles: seq<UserRoleRow>): (us: seq<UserId>)
    ensures forall u :: u in us <==>
      p.active && u == p.userId && exists j :: 0 <= j < |userRoles| && userRoles[j].userId == u && userRoles[j].role == Driver
  {
    if userRoles == [] then []
    else
      var init := RoleMatches(p, userRoles[..|userRoles| - 1]);
      var last := userRoles[|userRoles| - 1];
      var r := if p.active && last.userId == p.userId && last.role == Driver then init + [p.userId] else init;
      assert forall j :: 0 <= j < |userRoles| - 1 ==> userRoles[..|userRoles| - 1][j] == userRoles[j];
      r
  }

  /** The user ids of the active driver profiles whose user has the driver role. */
  function DriverRoster(profiles: seq<DriverProfile>, userRoles: seq<UserRoleRow>): (ds: seq<UserId>)
    ensures forall u :: u in ds <==>
      exists i, j :: 0 <= i < |profiles| && 0 <= j < |userRoles|
        && profiles[i].active && profiles[i].userId == u && userRoles[j].userId == u && userRoles[j].role == Driver
  {
    if profiles == [] then []
    else
      var init := DriverRoster(profiles[..|profiles| - 1], userRoles);
      var last := profiles[|profiles| - 1];
      assert forall i :: 0 <= i < |profiles| - 1 ==> profiles[..|profiles| - 1][i] == profiles[i];
      init + RoleMatches(last, userRoles)
  }

  /** `assignees`: the drivers, or a single unassigned slot when there is none. */
  function Assignees(drivers: seq<UserId>): (a: seq<Option<UserId>>)
    ensures |a| >= 1
    ensures drivers == [] ==> a == [None]
    ensures drivers != [] ==> |a| == |drivers| && forall i :: 0 <= i < |a| ==> a[i] == Some(drivers[i])
  {
    if |drivers| > 0 then seq(|drivers|, i requires 0 <= i < |drivers| => Some(drivers[i])) else [None]
  }

  // ----- the demand sort -----

  /** `demandScoreByZone`: a zone's score (in fiftieths); a later entry for the same zone wins. */
  function ScoreMap(demand: seq<Forecast.ZoneDemand>): (m: map<int, int>)
    ensures forall z :: z in m <==> exists i :: 0 <= i < |demand| && demand[i].zoneId == z
  {
    if demand == [] then map[]
    else
      var last := demand[|demand| - 1];
      assert forall i :: 0 <= i < |demand| - 1 ==> demand[..|demand| - 1][i] == demand[i];
      ScoreMap(demand[..|demand| - 1])[last.zoneId := last.score50]
  }

  /** With one entry per zone, the map holds each zone's own score. */
  lemma {:induction false} ScoreMapValues(demand: seq<Forecast.ZoneDemand>)
    requires forall i, j :: 0 <= i < j < |demand| ==> demand[i].zoneId != demand[j].zoneId
    ensures forall i :: 0 <= i < |demand| ==> ScoreMap(demand)[demand[i].zoneId] == demand[i].score50
  {
    if demand != [] {
      var init := demand[..|demand| - 1];
      ScoreMapValues(init);
      forall i | 0 <= i < |demand| ensures ScoreMap(demand)[demand[i].zoneId] == demand[i].score50 {
        if i < |demand| - 1 {
          assert init[i] == demand[i];
        }
      }
    }
  }

  /** `demandScoreByZone.get(report.zoneId ?? -1) ?? 0`. */
  function ScoreOf(scores: map<int, int>, r: CitizenReport): (score: int)
    ensures r.zoneId.Some? && r.zoneId.value in scores ==> score == scores[r.zoneId.value]
    ensures r.zoneId.Some? && r.zoneId.value !in scores ==> score == 0
    ensures r.zoneId.None? && -1 !in scores ==> score == 0
  {
    var key := r.zoneId.GetOr(-1);
    if key in scores then scores[key] else 0
  }

  /** The comparator: higher score first, then the earlier report; equal in both, the
      order is kept. */
  function ReportFirst(scores: map<int, int>, a: CitizenReport, b: CitizenReport): (first: bool)
    ensures first ==> ScoreOf(scores, a) >= ScoreOf(scores, b)
    ensures !first ==> ScoreOf(scores, b) > ScoreOf(scores, a) || (ScoreOf(scores, b) == ScoreOf(scores, a) && b.createdAt < a.createdAt)
  {
    ScoreOf(scores, a) > ScoreOf(scores, b) || (ScoreOf(scores, a) == ScoreOf(scores, b) && a.createdAt <= b.createdAt)
  }

  function SortedReports(scores: map<int, int>, rs: seq<CitizenReport>): (r: seq<CitizenReport>)
    ensures |r| == |rs| && multiset(r) == multiset(rs)
  {
    SortBy(rs, (a, b) => ReportFirst(scores, a, b))
  }

  /** The sorted reports are a permutation of the filtered ones, by descending score, and
      among equal scores by ascending creation time. */
  lemma SortedReportsOrdered(scores: map<int, int>, rs: seq<CitizenReport>)
    ensures var r := SortedReports(scores, rs);
      forall i, j :: 0 <= i < j < |r| ==>
        ScoreOf(scores, r[i]) > ScoreOf(scores, r[j])
        || (ScoreOf(scores, r[i]) == ScoreOf(scores, r[j]) && r[i].createdAt <= r[j].createdAt)
  {
    var le := (a, b) => ReportFirst(scores, a, b);
    assert TotalPreorder(le);
    SortBySorted(rs, le);
  }

  // ----- round-robin dealing -----

  /** The batch `assignments[b]`: the reports at the sorted indexes k with k % n == b, in order. */
  function Bucket(s: seq<CitizenReport>, n: nat, b: nat): seq<CitizenReport>
    requires n > 0
  {
    if s == [] then []
    else Bucket(s[..|s| - 1], n, b) + (if (|s| - 1) % n == b then [s[|s| - 1]] else [])
  }

  function Deal(s: seq<CitizenReport>, n: nat): (bs: seq<seq<CitizenReport>>)
    requires n > 0
    ensures |bs| == n && forall b :: 0 <= b < n ==> bs[b] == Bucket(s, n, b)
  {
    seq(n, b requires 0 <= b < n => Bucket(s, n, b))
  }

  /** `sortedReports.forEach((row, index) => assignments[index % assignments.length].push(row))`. */
  method DealRoundRobin(sorted: seq<CitizenReport>, n: nat) returns (assignments: seq<seq<CitizenReport>>)
    requires n > 0
    ensures assignments == Deal(sorted, n)
  {
    assignments := seq(n, _ => []);
    for index := 0 to |sorted|
      invariant |assignments| == n
      invariant forall b :: 0 <= b < n ==> assignments[b] == Bucket(sorted[..index], n, b)
    {
      var b := index % n;
      assert sorted[..index + 1][..index] == sorted[..index];
      assignments := assignments[b := assignments[b] + [sorted[index]]];
    }
    assert sorted[..|sorted|] == sorted;
  }

  lemma DivModSucc(m: nat, n: nat)
    requires n > 0
    ensures m % n < n - 1 ==> (m + 1) / n == m / n && (m + 1) % n == m % n + 1
    ensures m % n == n - 1 ==> (m + 1) / n == m / n + 1 && (m + 1) % n == 0
  {
    var q, r := m / n, m % n;
    assert m == q * n + r;
    if r < n - 1 {
      DivUnique(m + 1, n, q, r + 1);
    } else {
      assert m + 1 == (q + 1) * n;
      DivUnique(m + 1, n, q + 1, 0);
    }
  }

  lemma DivUnique(a: nat, n: nat, q: int, r: int)
    requires n > 0 && 0 <= r < n && a == q * n + r
    ensures a / n == q && a % n == r
  {
    var q', r' := a / n, a % n;
    assert (q - q') * n == r' - r;
    if q - q' >= 1 {
      MulAtLeast(q - q', n);
    } else if q' - q >= 1 {
      MulAtLeast(q' - q, n);
    }
  }

  lemma {:induction false} MulAtLeast(d: int, n: nat)
    requires d >= 1
    ensures d * n >= n
    decreases d
  {
    if d > 1 {
      MulAtLeast(d - 1, n);
    }
  }

  /** The batch sizes: the first `|s| % n` batches hold one report more than the others, so
      any two batches differ in size by at most one. */
  lemma {:induction false} BucketSize(s: seq<CitizenReport>, n: nat, b: nat)
    requires n > 0 && b < n
    ensures |Bucket(s, n, b)| == |s| / n + (if b < |s| % n then 1 else 0)
    decreases |s|
  {
    if s != [] {
      var m := |s| - 1;
      BucketSize(s[..m], n, b);
      DivModSucc(m, n);
    }
  }

  lemma BucketsBalanced(s: seq<CitizenReport>, n: nat, b1: nat, b2: nat)
    requires n > 0 && b1 < n && b2 < n
    ensures |Bucket(s, n, b1)| <= |Bucket(s, n, b2)| + 1
    ensures b1 <= b2 ==> |Bucket(s, n, b2)| <= |Bucket(s, n, b1)|
  {
    BucketSize(s, n, b1);
    BucketSize(s, n, b2);
  }

  /** Batch b is empty exactly when there are at most b reports. */
  lemma BucketNonEmpty(s: seq<CitizenReport>, n: nat, b: nat)
    requires n > 0 && b < n
    ensures Bucket(s, n, b) != [] <==> b < |s|
  {
    BucketSize(s, n, b);
    if |s| < n {
      DivUnique(|s|, n, 0, |s|);
    } else {
      DivUnique(|s|, n, |s| / n, |s| % n);
      assert |s| / n >= 1;
    }
  }

  /** The report at sorted index k goes to batch k % n, at position k / n. */
  lemma {:induction false} BucketPosition(s: seq<CitizenReport>, n: nat, k: nat)
    requires n > 0 && k < |s|
    ensures k / n < |Bucket(s, n, k % n)| && Bucket(s, n, k % n)[k / n] == s[k]
    decreases |s|
  {
    var m := |s| - 1;
    var init := s[..m];
    if k < m {
      BucketPosition(init, n, k);
      assert init[k] == s[k];
    } else {
      BucketSize(init, n, k % n);
      DivUnique(k, n, k / n, k % n);
    }
  }

  /** The concatenation of batches, and the number of reports they hold. */
  function Flatten(bs: seq<seq<CitizenReport>>): seq<CitizenReport>
  {
    if bs == [] then [] else Flatten(bs[..|bs| - 1]) + bs[|bs| - 1]
  }

  lemma {:induction false} FlattenPushed(bs: seq<seq<CitizenReport>>, b: nat, x: CitizenReport)
    requires b < |bs|
    ensures multiset(Flatten(bs[b := bs[b] + [x]])) == multiset(Flatten(bs)) + multiset{x}
    decreases |bs|
  {
    if b < |bs| - 1 {
      FlattenPushed(bs[..|bs| - 1], b, x);
      FlattenPushedEarlier(bs, b, x);
    } else {
      FlattenPushedLast(bs, x);
    }
  }

  /** Pushing onto a batch before the last one: the last batch is unchanged. */
  lemma FlattenPushedEarlier(bs: seq<seq<CitizenReport>>, b: nat, x: CitizenReport)
    requires b < |bs| - 1
    requires var init := bs[..|bs| - 1];
      multiset(Flatten(init[b := init[b] + [x]])) == multiset(Flatten(init)) + multiset{x}
    ensures multiset(Flatten(bs[b := bs[b] + [x]])) == multiset(Flatten(bs)) + multiset{x}
  {
    var cs := bs[b := bs[b] + [x]];
    var m := |bs| - 1;
    assert cs[..m] == bs[..m][b := bs[b] + [x]];
    assert Flatten(cs) == Flatten(cs[..m]) + cs[m];
    assert Flatten(bs) == Flatten(bs[..m]) + bs[m];
  }

  /** Pushing onto the last batch. */
  lemma FlattenPushedLast(bs: seq<seq<CitizenReport>>, x: CitizenReport)
    requires bs != []
    ensures var m := |bs| - 1; multiset(Flatten(bs[m := bs[m] + [x]])) == multiset(Flatten(bs)) + multiset{x}
  {
    var m := |bs| - 1;
    var cs := bs[m := bs[m] + [x]];
    assert cs[..m] == bs[..m];
    assert Flatten(cs) == Flatten(bs[..m]) + (bs[m] + [x]);
  }

  /** Dealing loses and duplicates nothing: the batches together are the sorted reports. */
  lemma {:induction false} DealPermutes(s: seq<CitizenReport>, n: nat)
    requires n > 0
    ensures multiset(Flatten(Deal(s, n))) == multiset(s)
    decreases |s|
  {
    if s != [] {
      var m := |s| - 1;
      DealPermutes(s[..m], n);
      var before := Deal(s[..m], n);
      DealPushed(s, n);
      FlattenPushed(before, m % n, s[m]);
      MultisetOfPushed(s);
    } else {
      FlattenEmpty(Deal(s, n));
    }
  }

  /** Dealing one more report appends it to batch `m % n`. */
  lemma DealPushed(s: seq<CitizenReport>, n: nat)
    requires n > 0 && s != []
    ensures var m := |s| - 1; var before := Deal(s[..m], n);
      Deal(s, n) == before[m % n := before[m % n] + [s[m]]]
  {
    var m := |s| - 1;
    var before := Deal(s[..m], n);
    var after := before[m % n := before[m % n] + [s[m]]];
    forall b | 0 <= b < n ensures Deal(s, n)[b] == after[b] {
      assert Bucket(s, n, b) == Bucket(s[..m], n, b) + (if m % n == b then [s[m]] else []);
    }
  }

  lemma MultisetOfPushed(s: seq<CitizenReport>)
    requires s != []
    ensures multiset(s) == multiset(s[..|s| - 1]) + multiset{s[|s| - 1]}
  {
    assert s == s[..|s| - 1] + [s[|s| - 1]];
  }

  lemma {:induction false} FlattenEmpty(bs: seq<seq<CitizenReport>>)
    requires forall b :: 0 <= b < |bs| ==> bs[b] == []
    ensures Flatten(bs) == []
    decreases |bs|
  {
    if bs != [] {
      FlattenEmpty(bs[..|bs| - 1]);
    }
  }

  // ----- one run per batch -----

  function PointsOf(batch: seq<CitizenReport>): (ps: seq<GeoPoint>)
    ensures |ps| == |batch|
    ensures forall i :: 0 <= i < |batch| ==> ps[i] == GeoPoint(batch[i].id, batch[i].latitude, batch[i].longitude)
  {
    seq(|batch|, i requires 0 <= i < |batch| => GeoPoint(batch[i].id, batch[i].latitude, batch[i].longitude))
  }

  /** `reportById.get(id)`: the map is built from the batch in order, so the last report
      with that id wins. */
  function FindReport(batch: seq<CitizenReport>, id: int): (r: Option<CitizenReport>)
    ensures r.Some? ==> r.value in batch && r.value.id == id
    ensures r.None? <==> forall i :: 0 <= i < |batch| ==> batch[i].id != id
  {
    if batch == [] then None
    else if batch[|batch| - 1].id == id then Some(batch[|batch| - 1])
    else
      assert forall i :: 0 <= i < |batch| - 1 ==> batch[..|batch| - 1][i] == batch[i];
      FindReport(batch[..|batch| - 1], id)
  }

  /** The stop row for a report at a given position of the run. */
  function StopRow(report: CitizenReport, runId: int, sequence: int, now: int): (s: RouteStop)
    ensures s.routeRunId == runId && s.sequence == sequence && s.sourceReportId == Some(report.id)
    ensures s.status == Pending && s.completedAt.None? && s.action == "collect"
    ensures s.latitude == report.latitude && s.longitude == report.longitude && s.zoneId == report.zoneId
  {
    RouteStop(0, runId, report.zoneId, Some(report.id), sequence, report.latitude, report.longitude,
              "collect", Pending, None, None, now, now)
  }

  /** `ordered.map(...)`: None where it would throw "Missing report". */
  function StopsFor(ordered: seq<GeoPoint>, batch: seq<CitizenReport>, runId: int, now: int): (r: Option<seq<RouteStop>>)
    ensures r.Some? <==> forall j :: 0 <= j < |ordered| ==> FindReport(batch, ordered[j].id).Some?
    ensures r.Some? ==> |r.value| == |ordered|
    ensures r.Some? ==> forall j :: 0 <= j < |ordered| ==> r.value[j] == StopRow(FindReport(batch, ordered[j].id).value, runId, j + 1, now)
  {
    if forall j :: 0 <= j < |ordered| ==> FindReport(batch, ordered[j].id).Some? then
      Some(seq(|ordered|, j requires 0 <= j < |ordered| => StopRow(FindReport(batch, ordered[j].id).value, runId, j + 1, now)))
    else
      None
  }

  function SourceIds(stops: seq<RouteStop>): (ids: seq<int>)
    requires forall j :: 0 <= j < |stops| ==> stops[j].sourceReportId.Some?
    ensures |ids| == |stops| && forall j :: 0 <= j < |stops| ==> ids[j] == stops[j].sourceReportId.value
  {
    seq(|stops|, j requires 0 <= j < |stops| => stops[j].sourceReportId.value)
  }

  function IdsOf(rs: seq<CitizenReport>): set<int> {
    set i | 0 <= i < |rs| :: rs[i].id
  }

  /** Any order of the batch's points finds every point's report: the lookups never fail. */
  lemma PermutedLookupsSucceed(ordered: seq<GeoPoint>, batch: seq<CitizenReport>, runId: int, now: int)
    requires forall p :: p in ordered <==> p in PointsOf(batch)
    ensures StopsFor(ordered, batch, runId, now).Some?
  {
    var points := PointsOf(batch);
    forall j | 0 <= j < |ordered| ensures FindReport(batch, ordered[j].id).Some? {
      assert ordered[j] in points;
      var i :| 0 <= i < |points| && points[i] == ordered[j];
      assert batch[i].id == ordered[j].id;
    }
  }

  /** Over any order of the batch's points, the stops name exactly the batch's reports: each
      report of the batch gets a stop, and every stop comes from a report of the batch. */
  lemma PermutedStopsCoverBatch(ordered: seq<GeoPoint>, batch: seq<CitizenReport>, runId: int, now: int)
    requires forall p :: p in ordered <==> p in PointsOf(batch)
    ensures var r := StopsFor(ordered, batch, runId, now);
      && r.Some?
      && (forall j :: 0 <= j < |r.value| ==> r.value[j].sourceReportId.Some?)
      && (set x | x in SourceIds(r.value)) == IdsOf(batch)
  {
    PermutedLookupsSucceed(ordered, batch, runId, now);
    var points := PointsOf(batch);
    var r := StopsFor(ordered, batch, runId, now).value;
    var ids := SourceIds(r);
    forall id | id in ids ensures id in IdsOf(batch) {
      var j :| 0 <= j < |ids| && ids[j] == id;
      var report := FindReport(batch, ordered[j].id).value;
      var i :| 0 <= i < |batch| && batch[i] == report;
    }
    forall id | id in IdsOf(batch) ensures id in ids {
      var i :| 0 <= i < |batch| && batch[i].id == id;
      assert points[i] in ordered;
      var j :| 0 <= j < |ordered| && ordered[j] == points[i];
      assert ids[j] == id;
    }
  }

  /** Nearest-neighbour ordering only permutes the batch's points, so every lookup succeeds
      and "Missing report" is never thrown. */
  lemma OrderedLookupsSucceed(dist: DistanceFn, batch: seq<CitizenReport>, runId: int, now: int)
    ensures StopsFor(NearestNeighborOrder(dist, PointsOf(batch)), batch, runId, now).Some?
  {
    NearestNeighborPermutes(dist, PointsOf(batch));
    PermutedLookupsSucceed(NearestNeighborOrder(dist, PointsOf(batch)), batch, runId, now);
  }

  /** The stops of a batch name exactly the batch's reports: each report of the batch gets a
      stop, and every stop comes from a report of the batch. */
  lemma OrderedStopsCoverBatch(dist: DistanceFn, batch: seq<CitizenReport>, runId: int, now: int)
    ensures var r := StopsFor(NearestNeighborOrder(dist, PointsOf(batch)), batch, runId, now);
      && r.Some?
      && (forall j :: 0 <= j < |r.value| ==> r.value[j].sourceReportId.Some?)
      && (set x | x in SourceIds(r.value)) == IdsOf(batch)
  {
    NearestNeighborPermutes(dist, PointsOf(batch));
    PermutedStopsCoverBatch(NearestNeighborOrder(dist, PointsOf(batch)), batch, runId, now);
  }

  function CoordsOf(stops: seq<RouteStop>): (cs: seq<Coord>)
    ensures |cs| == |stops|
    ensures forall j :: 0 <= j < |stops| ==> cs[j] == Coord(stops[j].latitude, stops[j].longitude)
  {
    seq(|stops|, j requires 0 <= j < |stops| => Coord(stops[j].latitude, stops[j].longitude))
  }

  /** The distance a run is planned with: the routing service's, else the straight-line path. */
  function PlannedKm(osrm: seq<Coord> -> Option<real>, dist: DistanceFn, coords: seq<Coord>): (km: real)
  {
    match osrm(coords)
    case Some(km) => km
    case None => PathLength(dist, coords)
  }

  /** The routing service's distance when it answers; otherwise the straight-line estimate,
      which for a haversine-like distance is never negative and is 0 for fewer than two stops. */
  lemma PlannedKmFallback(osrm: seq<Coord> -> Option<real>, dist: DistanceFn, coords: seq<Coord>)
    requires HaversineLike(dist)
    ensures osrm(coords).Some? ==> PlannedKm(osrm, dist, coords) == osrm(coords).value
    ensures osrm(coords).None? ==> PlannedKm(osrm, dist, coords) >= 0.0
    ensures osrm(coords).None? && |coords| < 2 ==> PlannedKm(osrm, dist, coords) == 0.0
  {
    PathLengthReversed(dist, coords);
  }

  /** Setting `in_review` on each id in turn, as the statements after the stop insert do. */
  function MarkAll(reports: seq<CitizenReport>, ids: seq<int>, now: int): (r: seq<CitizenReport>)
  {
    if ids == [] then reports
    else ReportsWithStatus(MarkAll(reports, ids[..|ids| - 1], now), ids[|ids| - 1], InReview, now)
  }

  /** `after` is `before` with exactly the reports whose id is in `ids` set to `in_review`. */
  predicate FlippedExactly(before: seq<CitizenReport>, after: seq<CitizenReport>, ids: set<int>, now: int) {
    |after| == |before| &&
    forall i :: 0 <= i < |before| ==>
      after[i] == if before[i].id in ids then before[i].(status := InReview, updatedAt := now) else before[i]
  }

  lemma {:induction false} MarkAllFlips(reports: seq<CitizenReport>, ids: seq<int>, now: int)
    ensures FlippedExactly(reports, MarkAll(reports, ids, now), (set x | x in ids), now)
    decreases |ids|
  {
    if ids != [] {
      var init := ids[..|ids| - 1];
      MarkAllFlips(reports, init, now);
      assert (set x | x in ids) == (set x | x in init) + {ids[|ids| - 1]};
    }
  }

  lemma FlippedCompose(a: seq<CitizenReport>, b: seq<CitizenReport>, c: seq<CitizenReport>, s1: set<int>, s2: set<int>, now: int)
    requires FlippedExactly(a, b, s1, now) && FlippedExactly(b, c, s2, now)
    ensures FlippedExactly(a, c, s1 + s2, now)
  {
    forall i | 0 <= i < |a|
      ensures c[i] == if a[i].id in s1 + s2 then a[i].(status := InReview, updatedAt := now) else a[i]
    {
      assert b[i].id == a[i].id;
    }
  }

  /** The report updates after the stop insert: the first stop's report, then the others'. */
  method MarkInReview(db: Store, stops: seq<RouteStop>, now: int)
    requires db.Valid()
    requires stops != [] && forall j :: 0 <= j < |stops| ==> stops[j].sourceReportId.Some?
    modifies db`reports
    ensures db.Valid()
    ensures db.reports == MarkAll(old(db.reports), SourceIds(stops), now)
  {
    ghost var ids := SourceIds(stops);
    ghost var before := db.reports;
    MarkAllStep(before, ids, 0, now);
    var _ := db.SetReportStatus(stops[0].sourceReportId.value, InReview, now);
    if |stops| > 1 {
      var remainingIds := SourceIds(stops[1..]);
      for k := 0 to |remainingIds|
        invariant db.Valid()
        invariant db.reports == MarkAll(before, ids[..k + 1], now)
      {
        MarkAllStep(before, ids, k + 1, now);
        assert remainingIds[k] == ids[k + 1];
        var _ := db.SetReportStatus(remainingIds[k], InReview, now);
      }
    }
    assert ids[..|stops|] == ids;
  }

  /** The updates keep every row, and every row's id, in place. */
  lemma {:induction false} MarkAllKeepsRows(reports: seq<CitizenReport>, ids: seq<int>, now: int)
    ensures |MarkAll(reports, ids, now)| == |reports|
    ensures forall i :: 0 <= i < |reports| ==> MarkAll(reports, ids, now)[i].id == reports[i].id
  {
    if ids != [] {
      MarkAllKeepsRows(reports, ids[..|ids| - 1], now);
    }
  }

  lemma MarkAllStep(reports: seq<CitizenReport>, ids: seq<int>, k: nat, now: int)
    requires k < |ids|
    ensures MarkAll(reports, ids[..k + 1], now) == ReportsWithStatus(MarkAll(reports, ids[..k], now), ids[k], InReview, now)
  {
    assert ids[..k + 1][..k] == ids[..k];
  }

  /** A run created after every existing run: setting its distance touches no older run. */
  lemma DistanceOfNewRun(runs: seq<RouteRun>, run: RouteRun, km: real, now: int)
    requires forall i :: 0 <= i < |runs| ==> runs[i].id < run.id
    ensures RunsWithDistance(runs + [run], run.id, km, now) == runs + [run.(plannedDistanceKm := km, updatedAt := now)]
  {
  }

  /** The listed stop rows of a new run: numbered 1.. in order, pending, `collect`, each
      naming its report. */
  predicate FreshStops(stops: seq<RouteStop>, runId: int) {
    forall j :: 0 <= j < |stops| ==>
      && stops[j].routeRunId == runId && stops[j].sequence == j + 1
      && stops[j].status == Pending && stops[j].completedAt.None? && stops[j].action == "collect"
      && stops[j].sourceReportId.Some?
  }

  lemma StopsForFresh(ordered: seq<GeoPoint>, batch: seq<CitizenReport>, runId: int, now: int)
    requires StopsFor(ordered, batch, runId, now).Some?
    ensures var stops := StopsFor(ordered, batch, runId, now).value;
      |stops| == |ordered| && FreshStops(stops, runId)
  {
  }

  /** Fresh stop rows of a run that no stored stop belongs to meet the insert's conditions. */
  lemma FreshStopsInsertable(existing: seq<RouteStop>, rows: seq<RouteStop>, runId: int, nextRunId: int)
    requires FreshStops(rows, runId) && runId < nextRunId && StopsOfKnownRuns(existing, runId)
    ensures forall j :: 0 <= j < |rows| ==> nextRunId > rows[j].routeRunId
    ensures forall j :: 0 <= j < |rows| ==> rows[j].status == Pending && rows[j].completedAt.None?
    ensures forall i, j :: 0 <= i < j < |rows| ==> rows[i].routeRunId == rows[j].routeRunId && rows[i].sequence != rows[j].sequence
    ensures rows != [] ==> forall i :: 0 <= i < |existing| ==> existing[i].routeRunId != rows[0].routeRunId
  {
  }

  /** The run and stop inserts of one batch, and the run's planned distance. */
  method PlanRun(db: Store, dist: DistanceFn, osrm: seq<Coord> -> Option<real>,
                 runDate: string, wardId: Option<int>, driver: Option<UserId>,
                 batch: seq<CitizenReport>, now: int)
    returns (run: RouteRun, stops: seq<RouteStop>)
    requires db.Valid()
    modifies db`runs, db`nextRunId, db`stops, db`nextStopId
    ensures db.Valid()
    ensures run == RouteRun(old(db.nextRunId), runDate, wardId, driver, Planned, 0.0, None, None, now, now)
    ensures StopsFor(NearestNeighborOrder(dist, PointsOf(batch)), batch, run.id, now) == Some(stops)
    ensures |stops| == |batch| && FreshStops(stops, run.id)
    ensures db.runs == old(db.runs) + [run.(plannedDistanceKm := PlannedKm(osrm, dist, CoordsOf(stops)), updatedAt := now)]
    ensures db.stops == old(db.stops) + WithStopIds(stops, old(db.nextStopId))
    ensures db.nextStopId == old(db.nextStopId) + |stops| && db.nextRunId == old(db.nextRunId) + 1
  {
    assert StopsOfKnownRuns(db.stops, db.nextRunId) && RunIdsOk(db.runs, db.nextRunId);
    run := db.InsertRun(runDate, wardId, driver, now);
    var points := PointsOf(batch);
    var ordered := OrderByNearestNeighbor(dist, points);
    OrderedLookupsSucceed(dist, batch, run.id, now);
    stops := StopsFor(ordered, batch, run.id, now).value;
    StopsForFresh(ordered, batch, run.id, now);
    FreshStopsInsertable(db.stops, stops, run.id, db.nextRunId);
    db.InsertStops(stops);
    SetPlannedDistance(db, dist, osrm, run, CoordsOf(stops), now);
  }

  /** The distance update of the run just inserted: the routing service's distance over the
      stops in order, else the straight-line estimate. */
  method SetPlannedDistance(db: Store, dist: DistanceFn, osrm: seq<Coord> -> Option<real>,
                            run: RouteRun, coords: seq<Coord>, now: int)
    requires db.Valid() && db.runs != [] && db.runs[|db.runs| - 1] == run
    requires forall i :: 0 <= i < |db.runs| - 1 ==> db.runs[i].id < run.id
    modifies db`runs
    ensures db.Valid()
    ensures db.runs == old(db.runs)[..|old(db.runs)| - 1] + [run.(plannedDistanceKm := PlannedKm(osrm, dist, coords), updatedAt := now)]
  {
    var osrmDistance: real;
    match osrm(coords) {
      case Some(km) => osrmDistance := km;
      case None => osrmDistance := EstimateDistance(dist, coords);
    }
    ghost var earlier := db.runs[..|db.runs| - 1];
    assert db.runs == earlier + [run];
    DistanceOfNewRun(earlier, run, osrmDistance, now);
    db.SetRunDistance(run.id, osrmDistance, now);
  }

  /** One iteration of the batch loop for a non-empty batch: the run, its stops in
      nearest-neighbour order numbered from 1, its planned distance, and the batch's reports
      set to `in_review`. */
  method CreateRunForBatch(db: Store, dist: DistanceFn, osrm: seq<Coord> -> Option<real>,
                           runDate: string, wardId: Option<int>, driver: Option<UserId>,
                           batch: seq<CitizenReport>, now: int)
    returns (run: RouteRun, stops: seq<RouteStop>)
    requires db.Valid() && batch != []
    modifies db`runs, db`nextRunId, db`stops, db`nextStopId, db`reports
    ensures db.Valid()
    ensures run == RouteRun(old(db.nextRunId), runDate, wardId, driver, Planned, 0.0, None, None, now, now)
    ensures StopsFor(NearestNeighborOrder(dist, PointsOf(batch)), batch, run.id, now) == Some(stops)
    ensures |stops| == |batch| && FreshStops(stops, run.id)
    ensures db.runs == old(db.runs) + [run.(plannedDistanceKm := PlannedKm(osrm, dist, CoordsOf(stops)), updatedAt := now)]
    ensures db.stops == old(db.stops) + WithStopIds(stops, old(db.nextStopId))
    ensures db.nextStopId == old(db.nextStopId) + |stops| && db.nextRunId == old(db.nextRunId) + 1
    ensures FlippedExactly(old(db.reports), db.reports, IdsOf(batch), now)
  {
    run, stops := PlanRun(db, dist, osrm, runDate, wardId, driver, batch, now);
    OrderedStopsCoverBatch(dist, batch, run.id, now);
    MarkInReview(db, stops, now);
    MarkAllFlips(old(db.reports), SourceIds(stops), now);
  }

  // ----- generateDailyRuns -----

  datatype RunSummary = RunSummary(runDate: string, runsCreated: nat, stopsCreated: nat)

  function Min(a: int, b: int): int {
    if a <= b then a else b
  }

  /** The runs from index `from` on: planned, for the date and ward, the k-th for `assignees[k]`. */
  predicate PlannedRuns(runs: seq<RouteRun>, from: nat, runDate: string, wardId: Option<int>, assignees: seq<Option<UserId>>) {
    from <= |runs| && |runs| - from <= |assignees| &&
    forall k :: 0 <= k < |runs| - from ==> PlannedFor(runs[from + k], runDate, wardId, assignees[k])
  }

  /** A planned run for the date and ward, assigned to `driver`. */
  predicate PlannedFor(run: RouteRun, runDate: string, wardId: Option<int>, driver: Option<UserId>) {
    run.status == Planned && run.runDate == runDate && run.wardId == wardId && run.driverUserId == driver
  }

  /** The stops from index `from` on are pending `collect` stops. */
  predicate PendingStops(stops: seq<RouteStop>, from: nat) {
    from <= |stops| && forall k :: from <= k < |stops| ==> stops[k].status == Pending && stops[k].action == "collect"
  }

  /** `runs` and `stops` extend `runs0` and `stops0` by `nRuns` and `nStops` rows. */
  predicate Extends(runs0: seq<RouteRun>, runs: seq<RouteRun>, stops0: seq<RouteStop>, stops: seq<RouteStop>, nRuns: nat, nStops: nat) {
    |runs| == |runs0| + nRuns && runs[..|runs0|] == runs0 &&
    |stops| == |stops0| + nStops && stops[..|stops0|] == stops0
  }

  lemma ExtendsStep(runs0: seq<RouteRun>, stops0: seq<RouteStop>, runs1: seq<RouteRun>, stops1: seq<RouteStop>,
                    runs2: seq<RouteRun>, stops2: seq<RouteStop>, nRuns: nat, nStops: nat, mRuns: nat, mStops: nat)
    requires Extends(runs0, runs1, stops0, stops1, nRuns, nStops)
    requires Extends(runs1, runs2, stops1, stops2, mRuns, mStops)
    ensures Extends(runs0, runs2, stops0, stops2, nRuns + mRuns, nStops + mStops)
  {
    assert runs2[..|runs0|] == runs2[..|runs1|][..|runs0|];
    assert stops2[..|stops0|] == stops2[..|stops1|][..|stops0|];
  }

  lemma PlannedRunsStep(runs1: seq<RouteRun>, runs2: seq<RouteRun>, from: nat, runDate: string, wardId: Option<int>,
                        assignees: seq<Option<UserId>>)
    requires PlannedRuns(runs1, from, runDate, wardId, assignees) && |runs1| - from < |assignees|
    requires |runs2| == |runs1| + 1 && runs2[..|runs1|] == runs1
    requires PlannedFor(runs2[|runs1|], runDate, wardId, assignees[|runs1| - from])
    ensures PlannedRuns(runs2, from, runDate, wardId, assignees)
  {
    forall k | 0 <= k < |runs2| - from ensures PlannedFor(runs2[from + k], runDate, wardId, assignees[k]) {
      if from + k < |runs1| {
        assert runs2[..|runs1|][from + k] == runs2[from + k];
      }
    }
  }

  lemma PendingStopsJoin(stops1: seq<RouteStop>, stops2: seq<RouteStop>, from: nat)
    requires PendingStops(stops1, from) && PendingStops(stops2, |stops1|) && stops2[..|stops1|] == stops1
    ensures PendingStops(stops2, from)
  {
    forall k | from <= k < |stops1| ensures stops2[k] == stops1[k] {
      assert stops2[..|stops1|][k] == stops2[k];
    }
  }

  lemma FlattenSnoc(bs: seq<seq<CitizenReport>>, i: nat)
    requires i < |bs|
    ensures Flatten(bs[..i + 1]) == Flatten(bs[..i]) + bs[i]
  {
    assert bs[..i + 1][..i] == bs[..i];
  }

  /** The stops of `batch` in visiting order, before a run or stop id is given: the batch's
      reports in nearest-neighbour order, numbered from 1 (`OrderedLookupsSucceed`: the lookups
      never fail). */
  function VisitStops(dist: DistanceFn, batch: seq<CitizenReport>, now: int): seq<RouteStop> {
    match StopsFor(NearestNeighborOrder(dist, PointsOf(batch)), batch, 0, now)
    case Some(stops) => stops
    case None => []
  }

  /** `stops`, each on run `runId`. */
  function OnRun(stops: seq<RouteStop>, runId: int): (r: seq<RouteStop>)
    ensures |r| == |stops| && forall j :: 0 <= j < |r| ==> r[j] == stops[j].(routeRunId := runId)
  {
    seq(|stops|, j requires 0 <= j < |stops| => stops[j].(routeRunId := runId))
  }

  /** The stops of run `runId` for `batch`, before ids are given. */
  function OrderedStops(dist: DistanceFn, batch: seq<CitizenReport>, runId: int, now: int): seq<RouteStop> {
    OnRun(VisitStops(dist, batch, now), runId)
  }

  /** The run row the batch loop leaves for `batch`: planned for the date, ward and driver, at
      the routed (else estimated) distance over its ordered stops. */
  function BatchRun(dist: DistanceFn, osrm: seq<Coord> -> Option<real>, runDate: string, wardId: Option<int>,
                    driver: Option<UserId>, batch: seq<CitizenReport>, runId: int, now: int): RouteRun {
    RouteRun(runId, runDate, wardId, driver, Planned, PlannedKm(osrm, dist, CoordsOf(VisitStops(dist, batch, now))),
             None, None, now, now)
  }

  /** The run id only fills in each stop's run: the stops of run `runId` are the visiting-order
      stops on that run. */
  lemma StopsForOnRun(ordered: seq<GeoPoint>, batch: seq<CitizenReport>, runId: int, now: int)
    ensures StopsFor(ordered, batch, runId, now).Some? == StopsFor(ordered, batch, 0, now).Some?
    ensures StopsFor(ordered, batch, runId, now).Some? ==>
      StopsFor(ordered, batch, runId, now).value == OnRun(StopsFor(ordered, batch, 0, now).value, runId)
  {
  }

  /** Equal run ids give equal stops (stated on its own so that the solver need not compare
      the stops element by element). */
  lemma OnRunSameId(stops: seq<RouteStop>, runId1: int, runId2: int)
    requires runId1 == runId2
    ensures OnRun(stops, runId1) == OnRun(stops, runId2)
  {
  }

  lemma CoordsOfOnRun(stops: seq<RouteStop>, runId: int)
    ensures CoordsOf(OnRun(stops, runId)) == CoordsOf(stops)
  {
  }

  /** The run rows of the batches: batch k as run `firstRunId + k`, for assignee k. */
  function BatchRuns(dist: DistanceFn, osrm: seq<Coord> -> Option<real>, runDate: string, wardId: Option<int>,
                     assignees: seq<Option<UserId>>, assignments: seq<seq<CitizenReport>>, firstRunId: int, now: int): (rs: seq<RouteRun>)
    requires |assignments| <= |assignees|
    ensures |rs| == |assignments|
    ensures forall k {:trigger rs[k]} :: 0 <= k < |rs| ==> rs[k] == BatchRun(dist, osrm, runDate, wardId, assignees[k], assignments[k], firstRunId + k, now)
  {
    seq(|assignments|, k requires 0 <= k < |assignments| => BatchRun(dist, osrm, runDate, wardId, assignees[k], assignments[k], firstRunId + k, now))
  }

  /** The ordered stops of the batches, before ids are given: batch k's as run `firstRunId + k`. */
  function BatchStopRows(dist: DistanceFn, assignments: seq<seq<CitizenReport>>, firstRunId: int, now: int): (ss: seq<seq<RouteStop>>)
    ensures |ss| == |assignments|
    ensures forall k {:trigger ss[k]} :: 0 <= k < |ss| ==> ss[k] == OrderedStops(dist, assignments[k], firstRunId + k, now)
  {
    seq(|assignments|, k requires 0 <= k < |assignments| => OrderedStops(dist, assignments[k], firstRunId + k, now))
  }

  lemma BatchRowsAt(dist: DistanceFn, osrm: seq<Coord> -> Option<real>, runDate: string, wardId: Option<int>,
                    assignees: seq<Option<UserId>>, assignments: seq<seq<CitizenReport>>, firstRunId: int, i: nat, runId: int, now: int)
    requires |assignments| <= |assignees| && i < |assignments| && runId == firstRunId + i
    ensures BatchRuns(dist, osrm, runDate, wardId, assignees, assignments, firstRunId, now)[i]
      == BatchRun(dist, osrm, runDate, wardId, assignees[i], assignments[i], runId, now)
    ensures BatchStopRows(dist, assignments, firstRunId, now)[i] == OrderedStops(dist, assignments[i], runId, now)
  {
    OnRunSameId(VisitStops(dist, assignments[i], now), firstRunId + i, runId);
  }

  /** Batch k was written as the run at `runsFrom + k`, equal to `runRows[k]`, and as the stop
      rows `stopRows[k]` that follow those of the batches before it, with the ids that follow theirs. */
  predicate BatchWrittenAt(runs: seq<RouteRun>, runsFrom: nat, stops: seq<RouteStop>, stopsFrom: nat,
                           assignments: seq<seq<CitizenReport>>, runRows: seq<RouteRun>, stopRows: seq<seq<RouteStop>>, firstStopId: int, k: nat) {
    k < |assignments| && k < |runRows| && k < |stopRows| && runsFrom + k < |runs| &&
    var before := |Flatten(assignments[..k])|;
    stopsFrom + before + |stopRows[k]| <= |stops| &&
    runs[runsFrom + k] == runRows[k] &&
    stops[stopsFrom + before..stopsFrom + before + |stopRows[k]|] == WithStopIds(stopRows[k], firstStopId + before)
  }

  /** The first `count` batches were written as `BatchWrittenAt` says. */
  predicate BatchesWritten(runs: seq<RouteRun>, runsFrom: nat, stops: seq<RouteStop>, stopsFrom: nat,
                           assignments: seq<seq<CitizenReport>>, runRows: seq<RouteRun>, stopRows: seq<seq<RouteStop>>, firstStopId: int, count: nat) {
    forall k: nat :: k < count ==> BatchWrittenAt(runs, runsFrom, stops, stopsFrom, assignments, runRows, stopRows, firstStopId, k)
  }

  /** The runs and stops from `runsFrom` and `stopsFrom` on are, batch by batch, the planned run
      and ordered stops of the first `count` batches. */
  predicate BatchesPlanned(runs: seq<RouteRun>, runsFrom: nat, stops: seq<RouteStop>, stopsFrom: nat,
                           firstRunId: int, firstStopId: int,
                           dist: DistanceFn, osrm: seq<Coord> -> Option<real>, runDate: string, wardId: Option<int>,
                           assignees: seq<Option<UserId>>, assignments: seq<seq<CitizenReport>>, count: nat, now: int) {
    |assignments| <= |assignees| &&
    BatchesWritten(runs, runsFrom, stops, stopsFrom, assignments,
                   BatchRuns(dist, osrm, runDate, wardId, assignees, assignments, firstRunId, now),
                   BatchStopRows(dist, assignments, firstRunId, now), firstStopId, count)
  }

  /** Appending rows keeps what an earlier batch wrote. */
  lemma BatchWrittenAtExtends(runs1: seq<RouteRun>, runs2: seq<RouteRun>, stops1: seq<RouteStop>, stops2: seq<RouteStop>,
                              runsFrom: nat, stopsFrom: nat,
                              assignments: seq<seq<CitizenReport>>, runRows: seq<RouteRun>, stopRows: seq<seq<RouteStop>>,
                              firstStopId: int, k: nat)
    requires BatchWrittenAt(runs1, runsFrom, stops1, stopsFrom, assignments, runRows, stopRows, firstStopId, k)
    requires |runs1| <= |runs2| && runs2[..|runs1|] == runs1
    requires |stops1| <= |stops2| && stops2[..|stops1|] == stops1
    ensures BatchWrittenAt(runs2, runsFrom, stops2, stopsFrom, assignments, runRows, stopRows, firstStopId, k)
  {
    var lo := stopsFrom + |Flatten(assignments[..k])|;
    var hi := lo + |stopRows[k]|;
    assert runs2[runsFrom + k] == runs1[runsFrom + k] by {
      assert runs2[..|runs1|][runsFrom + k] == runs2[runsFrom + k];
    }
    assert stops2[lo..hi] == stops1[lo..hi] by {
      assert stops2[..|stops1|][lo..hi] == stops2[lo..hi];
    }
  }

  /** The batch loop's step: batch i written after the first i leaves the first i + 1 written. */
  lemma BatchesWrittenStep(runs1: seq<RouteRun>, runs2: seq<RouteRun>, stops1: seq<RouteStop>, stops2: seq<RouteStop>,
                           runsFrom: nat, stopsFrom: nat,
                           assignments: seq<seq<CitizenReport>>, runRows: seq<RouteRun>, stopRows: seq<seq<RouteStop>>,
                           firstStopId: int, i: nat, stopId: int)
    requires BatchesWritten(runs1, runsFrom, stops1, stopsFrom, assignments, runRows, stopRows, firstStopId, i)
    requires i < |assignments| && i < |runRows| && i < |stopRows|
    requires |runs1| == runsFrom + i && |runs2| == |runs1| + 1 && runs2[..|runs1|] == runs1 && runs2[|runs1|] == runRows[i]
    requires |stops1| == stopsFrom + |Flatten(assignments[..i])|
    requires stopId == firstStopId + |Flatten(assignments[..i])| && stops2 == stops1 + WithStopIds(stopRows[i], stopId)
    ensures BatchesWritten(runs2, runsFrom, stops2, stopsFrom, assignments, runRows, stopRows, firstStopId, i + 1)
  {
    assert stops2[..|stops1|] == stops1;
    forall k: nat | k < i + 1 ensures BatchWrittenAt(runs2, runsFrom, stops2, stopsFrom, assignments, runRows, stopRows, firstStopId, k) {
      if k < i {
        BatchWrittenAtExtends(runs1, runs2, stops1, stops2, runsFrom, stopsFrom, assignments, runRows, stopRows, firstStopId, k);
      } else {
        BatchWrittenAtNew(runs1, runs2, stops1, stops2, runsFrom, stopsFrom, assignments, runRows, stopRows, firstStopId, i, stopId);
      }
    }
  }

  /** The batch just written is written as `BatchWrittenAt` says. */
  lemma BatchWrittenAtNew(runs1: seq<RouteRun>, runs2: seq<RouteRun>, stops1: seq<RouteStop>, stops2: seq<RouteStop>,
                          runsFrom: nat, stopsFrom: nat,
                          assignments: seq<seq<CitizenReport>>, runRows: seq<RouteRun>, stopRows: seq<seq<RouteStop>>,
                          firstStopId: int, i: nat, stopId: int)
    requires i < |assignments| && i < |runRows| && i < |stopRows|
    requires |runs1| == runsFrom + i && |runs2| == |runs1| + 1 && runs2[|runs1|] == runRows[i]
    requires |stops1| == stopsFrom + |Flatten(assignments[..i])|
    requires stopId == firstStopId + |Flatten(assignments[..i])| && stops2 == stops1 + WithStopIds(stopRows[i], stopId)
    ensures BatchWrittenAt(runs2, runsFrom, stops2, stopsFrom, assignments, runRows, stopRows, firstStopId, i)
  {
    assert stops2[|stops1|..|stops1| + |stopRows[i]|] == WithStopIds(stopRows[i], stopId);
  }

  /** One non-empty batch: the run `BatchRun` and the stops `OrderedStops` with the next ids,
      and the batch set to `in_review`. */
  method RunBatch(db: Store, dist: DistanceFn, osrm: seq<Coord> -> Option<real>,
                  runDate: string, wardId: Option<int>, driver: Option<UserId>,
                  batch: seq<CitizenReport>, now: int)
    returns (stopCount: nat)
    requires db.Valid() && batch != []
    modifies db`runs, db`nextRunId, db`stops, db`nextStopId, db`reports
    ensures db.Valid()
    ensures stopCount == |batch| && db.nextStopId == old(db.nextStopId) + stopCount && db.nextRunId == old(db.nextRunId) + 1
    ensures FlippedExactly(old(db.reports), db.reports, IdsOf(batch), now)
    ensures Extends(old(db.runs), db.runs, old(db.stops), db.stops, 1, stopCount)
    ensures db.runs[|old(db.runs)|] == BatchRun(dist, osrm, runDate, wardId, driver, batch, old(db.nextRunId), now)
    ensures db.stops == old(db.stops) + WithStopIds(OrderedStops(dist, batch, old(db.nextRunId), now), old(db.nextStopId))
    ensures PlannedFor(db.runs[|old(db.runs)|], runDate, wardId, driver)
    ensures PendingStops(db.stops, |old(db.stops)|)
  {
    var run, stops := CreateRunForBatch(db, dist, osrm, runDate, wardId, driver, batch, now);
    stopCount := |stops|;
    BatchRowsOf(dist, osrm, runDate, wardId, driver, batch, run.(plannedDistanceKm := PlannedKm(osrm, dist, CoordsOf(stops)), updatedAt := now), stops, now);
    assert (old(db.runs) + [db.runs[|old(db.runs)|]])[..|old(db.runs)|] == old(db.runs);
    assert (old(db.stops) + WithStopIds(stops, old(db.nextStopId)))[..|old(db.stops)|] == old(db.stops);
  }

  /** The run and stops `CreateRunForBatch` writes are `BatchRun` and `OrderedStops`. */
  lemma BatchRowsOf(dist: DistanceFn, osrm: seq<Coord> -> Option<real>, runDate: string, wardId: Option<int>,
                    driver: Option<UserId>, batch: seq<CitizenReport>, run: RouteRun, stops: seq<RouteStop>, now: int)
    requires StopsFor(NearestNeighborOrder(dist, PointsOf(batch)), batch, run.id, now) == Some(stops)
    requires run == RouteRun(run.id, runDate, wardId, driver, Planned, PlannedKm(osrm, dist, CoordsOf(stops)), None, None, now, now)
    ensures OrderedStops(dist, batch, run.id, now) == stops
    ensures BatchRun(dist, osrm, runDate, wardId, driver, batch, run.id, now) == run
  {
    StopsForOnRun(NearestNeighborOrder(dist, PointsOf(batch)), batch, run.id, now);
    CoordsOfOnRun(VisitStops(dist, batch, now), run.id);
  }

  /** The loop over the batches, which are non-empty exactly up to `filled`: batch k becomes
      new run k, for assignee k, with its stops after those of the batches before it. */
  method CreateRuns(db: Store, dist: DistanceFn, osrm: seq<Coord> -> Option<real>, runDate: string, wardId: Option<int>,
                    assignees: seq<Option<UserId>>, assignments: seq<seq<CitizenReport>>, ghost filled: nat, now: int)
    returns (runsCreated: nat, stopsCreated: nat)
    requires db.Valid()
    requires |assignments| == |assignees| && filled <= |assignments|
    requires forall b :: 0 <= b < |assignments| ==> (assignments[b] != [] <==> b < filled)
    modifies db`runs, db`nextRunId, db`stops, db`nextStopId, db`reports
    ensures db.Valid()
    ensures runsCreated == filled && stopsCreated == |Flatten(assignments)|
    ensures db.nextStopId == old(db.nextStopId) + stopsCreated && db.nextRunId == old(db.nextRunId) + runsCreated
    ensures FlippedExactly(old(db.reports), db.reports, IdsOf(Flatten(assignments)), now)
    ensures Extends(old(db.runs), db.runs, old(db.stops), db.stops, runsCreated, stopsCreated)
    ensures BatchesPlanned(db.runs, |old(db.runs)|, db.stops, |old(db.stops)|, old(db.nextRunId), old(db.nextStopId),
                           dist, osrm, runDate, wardId, assignees, assignments, runsCreated, now)
    ensures PlannedRuns(db.runs, |old(db.runs)|, runDate, wardId, assignees)
    ensures PendingStops(db.stops, |old(db.stops)|)
  {
    runsCreated, stopsCreated := 0, 0;
    ghost var reports0, runs0, stops0, nextRun0, nextStop0 := db.reports, db.runs, db.stops, db.nextRunId, db.nextStopId;
    ghost var runRows := BatchRuns(dist, osrm, runDate, wardId, assignees, assignments, nextRun0, now);
    ghost var stopRows := BatchStopRows(dist, assignments, nextRun0, now);
    assert FlippedExactly(reports0, db.reports, {}, now);
    assert Extends(runs0, db.runs, stops0, db.stops, 0, 0);
    for i := 0 to |assignments|
      invariant db.Valid()
      invariant runsCreated == Min(i, filled)
      invariant stopsCreated == |Flatten(assignments[..i])| && db.nextStopId == nextStop0 + stopsCreated
      invariant db.nextRunId == nextRun0 + runsCreated
      invariant FlippedExactly(reports0, db.reports, IdsOf(Flatten(assignments[..i])), now)
      invariant Extends(runs0, db.runs, stops0, db.stops, runsCreated, stopsCreated)
      invariant BatchesWritten(db.runs, |runs0|, db.stops, |stops0|, assignments, runRows, stopRows, nextStop0, runsCreated)
      invariant PlannedRuns(db.runs, |runs0|, runDate, wardId, assignees)
      invariant PendingStops(db.stops, |stops0|)
    {
      var batch := assignments[i];
      FlattenSnoc(assignments, i);
      IdsOfAppend(Flatten(assignments[..i]), batch);
      if |batch| == 0 {
        assert IdsOf(batch) == {};
        continue;
      }
      assert i < filled && runsCreated == i;
      var stopCount := WriteBatch(db, dist, osrm, runDate, wardId, assignees, assignments, i, now,
                                  reports0, runs0, stops0, nextRun0, nextStop0, runRows, stopRows);
      runsCreated := runsCreated + 1;
      stopsCreated := stopsCreated + stopCount;
    }
    assert assignments[..|assignments|] == assignments;
  }

  /** One non-empty batch of the loop in `CreateRuns`, written as the next run and its stops:
      the facts the loop keeps for the batches before `i` then hold for those up to `i`. */
  method WriteBatch(db: Store, dist: DistanceFn, osrm: seq<Coord> -> Option<real>, runDate: string, wardId: Option<int>,
                    assignees: seq<Option<UserId>>, assignments: seq<seq<CitizenReport>>, i: nat, now: int,
                    ghost reports0: seq<CitizenReport>, ghost runs0: seq<RouteRun>, ghost stops0: seq<RouteStop>,
                    ghost nextRun0: int, ghost nextStop0: int, ghost runRows: seq<RouteRun>, ghost stopRows: seq<seq<RouteStop>>)
    returns (stopCount: nat)
    requires db.Valid()
    requires |assignments| == |assignees| && i < |assignments| && assignments[i] != []
    requires runRows == BatchRuns(dist, osrm, runDate, wardId, assignees, assignments, nextRun0, now)
    requires stopRows == BatchStopRows(dist, assignments, nextRun0, now)
    requires Flatten(assignments[..i + 1]) == Flatten(assignments[..i]) + assignments[i]
    requires IdsOf(Flatten(assignments[..i + 1])) == IdsOf(Flatten(assignments[..i])) + IdsOf(assignments[i])
    requires db.nextRunId == nextRun0 + i && db.nextStopId == nextStop0 + |Flatten(assignments[..i])|
    requires FlippedExactly(reports0, db.reports, IdsOf(Flatten(assignments[..i])), now)
    requires Extends(runs0, db.runs, stops0, db.stops, i, |Flatten(assignments[..i])|)
    requires BatchesWritten(db.runs, |runs0|, db.stops, |stops0|, assignments, runRows, stopRows, nextStop0, i)
    requires PlannedRuns(db.runs, |runs0|, runDate, wardId, assignees)
    requires PendingStops(db.stops, |stops0|)
    modifies db`runs, db`nextRunId, db`stops, db`nextStopId, db`reports
    ensures db.Valid()
    ensures stopCount == |assignments[i]|
    ensures db.nextRunId == nextRun0 + i + 1 && db.nextStopId == nextStop0 + |Flatten(assignments[..i + 1])|
    ensures FlippedExactly(reports0, db.reports, IdsOf(Flatten(assignments[..i + 1])), now)
    ensures Extends(runs0, db.runs, stops0, db.stops, i + 1, |Flatten(assignments[..i + 1])|)
    ensures BatchesWritten(db.runs, |runs0|, db.stops, |stops0|, assignments, runRows, stopRows, nextStop0, i + 1)
    ensures PlannedRuns(db.runs, |runs0|, runDate, wardId, assignees)
    ensures PendingStops(db.stops, |stops0|)
  {
    ghost var reportsBefore, runsBefore, stopsBefore := db.reports, db.runs, db.stops;
    ghost var stopIdBefore := db.nextStopId;
    BatchRowsAt(dist, osrm, runDate, wardId, assignees, assignments, nextRun0, i, db.nextRunId, now);
    stopCount := RunBatch(db, dist, osrm, runDate, wardId, assignees[i], assignments[i], now);
    BatchStep(reports0, reportsBefore, db.reports, runs0, runsBefore, db.runs, stops0, stopsBefore, db.stops,
              assignments, runRows, stopRows, nextStop0, i, stopIdBefore, stopCount, runDate, wardId, assignees, now);
  }

  /** The facts the batch loop keeps, carried over one written batch. */
  lemma BatchStep(reports0: seq<CitizenReport>, reports1: seq<CitizenReport>, reports2: seq<CitizenReport>,
                  runs0: seq<RouteRun>, runs1: seq<RouteRun>, runs2: seq<RouteRun>,
                  stops0: seq<RouteStop>, stops1: seq<RouteStop>, stops2: seq<RouteStop>,
                  assignments: seq<seq<CitizenReport>>, runRows: seq<RouteRun>, stopRows: seq<seq<RouteStop>>,
                  firstStopId: int, i: nat, stopId: int, stopCount: nat,
                  runDate: string, wardId: Option<int>, assignees: seq<Option<UserId>>, now: int)
    requires i < |assignments| && i < |runRows| && i < |stopRows| && i < |assignees|
    requires Flatten(assignments[..i + 1]) == Flatten(assignments[..i]) + assignments[i]
    requires IdsOf(Flatten(assignments[..i + 1])) == IdsOf(Flatten(assignments[..i])) + IdsOf(assignments[i])
    requires FlippedExactly(reports0, reports1, IdsOf(Flatten(assignments[..i])), now)
    requires Extends(runs0, runs1, stops0, stops1, i, |Flatten(assignments[..i])|)
    requires BatchesWritten(runs1, |runs0|, stops1, |stops0|, assignments, runRows, stopRows, firstStopId, i)
    requires PlannedRuns(runs1, |runs0|, runDate, wardId, assignees)
    requires PendingStops(stops1, |stops0|)
    requires stopId == firstStopId + |Flatten(assignments[..i])| && stopCount == |assignments[i]|
    requires FlippedExactly(reports1, reports2, IdsOf(assignments[i]), now)
    requires Extends(runs1, runs2, stops1, stops2, 1, stopCount)
    requires runs2[|runs1|] == runRows[i] && PlannedFor(runs2[|runs1|], runDate, wardId, assignees[i])
    requires stops2 == stops1 + WithStopIds(stopRows[i], stopId)
    requires PendingStops(stops2, |stops1|)
    ensures FlippedExactly(reports0, reports2, IdsOf(Flatten(assignments[..i + 1])), now)
    ensures Extends(runs0, runs2, stops0, stops2, i + 1, |Flatten(assignments[..i + 1])|)
    ensures BatchesWritten(runs2, |runs0|, stops2, |stops0|, assignments, runRows, stopRows, firstStopId, i + 1)
    ensures PlannedRuns(runs2, |runs0|, runDate, wardId, assignees)
    ensures PendingStops(stops2, |stops0|)
  {
    FlippedCompose(reports0, reports1, reports2, IdsOf(Flatten(assignments[..i])), IdsOf(assignments[i]), now);
    ExtendsStep(runs0, stops0, runs1, stops1, runs2, stops2, i, |Flatten(assignments[..i])|, 1, stopCount);
    BatchesWrittenStep(runs1, runs2, stops1, stops2, |runs0|, |stops0|, assignments, runRows, stopRows, firstStopId, i, stopId);
    PlannedRunsStep(runs1, runs2, |runs0|, runDate, wardId, assignees);
    PendingStopsJoin(stops1, stops2, |stops0|);
  }

  lemma IdsOfAppend(a: seq<CitizenReport>, b: seq<CitizenReport>)
    ensures IdsOf(a + b) == IdsOf(a) + IdsOf(b)
  {
    forall id | id in IdsOf(a + b) ensures id in IdsOf(a) + IdsOf(b) {
      var i :| 0 <= i < |a + b| && (a + b)[i].id == id;
      if i >= |a| {
        assert b[i - |a|].id == id;
      }
    }
    forall id | id in IdsOf(a) + IdsOf(b) ensures id in IdsOf(a + b) {
      if id in IdsOf(a) {
        var i :| 0 <= i < |a| && a[i].id == id;
        assert (a + b)[i].id == id;
      } else {
        var i :| 0 <= i < |b| && b[i].id == id;
        assert (a + b)[|a| + i].id == id;
      }
    }
  }

  lemma IdsOfPermutation(a: seq<CitizenReport>, b: seq<CitizenReport>)
    requires multiset(a) == multiset(b)
    ensures IdsOf(a) == IdsOf(b)
  {
    forall id | id in IdsOf(a) ensures id in IdsOf(b) {
      var i :| 0 <= i < |a| && a[i].id == id;
      assert a[i] in multiset(b);
      var j :| 0 <= j < |b| && b[j] == a[i];
    }
    forall id | id in IdsOf(b) ensures id in IdsOf(a) {
      var i :| 0 <= i < |b| && b[i].id == id;
      assert b[i] in multiset(a);
      var j :| 0 <= j < |a| && a[j] == b[i];
    }
  }

  /** The batches of a deal of `s` over n drivers hold all of `s`, and exactly the first
      `min(n, |s|)` of them are non-empty. */
  lemma DealShape(s: seq<CitizenReport>, n: nat)
    requires n > 0
    ensures |Flatten(Deal(s, n))| == |s| && IdsOf(Flatten(Deal(s, n))) == IdsOf(s)
    ensures forall b :: 0 <= b < n ==> (Deal(s, n)[b] != [] <==> b < Min(n, |s|))
  {
    DealPermutes(s, n);
    IdsOfPermutation(Flatten(Deal(s, n)), s);
    assert |multiset(Flatten(Deal(s, n)))| == |multiset(s)|;
    forall b | 0 <= b < n ensures Deal(s, n)[b] != [] <==> b < Min(n, |s|) {
      BucketNonEmpty(s, n, b);
    }
  }

  /** With no report to dispatch the store stays as it was, which meets every dispatch fact. */
  lemma NothingDispatched(runs: seq<RouteRun>, stops: seq<RouteStop>, nextRunId: int, nextStopId: int, reports: seq<CitizenReport>,
                          dist: DistanceFn, osrm: seq<Coord> -> Option<real>, date: string, wardId: Option<int>,
                          assignees: seq<Option<UserId>>, scores: map<int, int>, now: int)
    requires |assignees| > 0
    ensures Extends(runs, runs, stops, stops, 0, 0)
    ensures FlippedExactly(reports, reports, IdsOf([]), now)
    ensures PlannedRuns(runs, |runs|, date, wardId, assignees) && PendingStops(stops, |stops|)
    ensures BatchesPlanned(runs, |runs|, stops, |stops|, nextRunId, nextStopId, dist, osrm, date, wardId,
                           assignees, Deal(SortedReports(scores, []), |assignees|), 0, now)
  {
    assert IdsOf([]) == {};
  }

  /** The dispatch part of `generateDailyRuns` after the forecast refresh: filter, sort by
      zone score, deal round-robin to the drivers, and create one run per non-empty batch. */
  method DispatchReports(db: Store, dist: DistanceFn, osrm: seq<Coord> -> Option<real>,
                         date: string, wardId: Option<int>, demandScoreByZone: map<int, int>, now: int)
    returns (runsCreated: nat, stopsCreated: nat)
    requires db.Valid()
    modifies db`runs, db`nextRunId, db`stops, db`nextStopId, db`reports
    ensures db.Valid()
    ensures var filtered := FilteredReports(old(db.reports), db.zones, wardId);
      var assignees := Assignees(DriverRoster(db.driverProfiles, db.userRoles));
      && stopsCreated == |filtered|
      && runsCreated == Min(|assignees|, |filtered|)
      && FlippedExactly(old(db.reports), db.reports, IdsOf(filtered), now)
      && (filtered == [] ==> db.runs == old(db.runs) && db.stops == old(db.stops) && db.reports == old(db.reports))
      && BatchesPlanned(db.runs, |old(db.runs)|, db.stops, |old(db.stops)|, old(db.nextRunId), old(db.nextStopId), dist, osrm, date, wardId,
                        assignees, Deal(SortedReports(demandScoreByZone, filtered), |assignees|), runsCreated, now)
    ensures Extends(old(db.runs), db.runs, old(db.stops), db.stops, runsCreated, stopsCreated)
    ensures PlannedRuns(db.runs, |old(db.runs)|, date, wardId, Assignees(DriverRoster(db.driverProfiles, db.userRoles)))
    ensures PendingStops(db.stops, |old(db.stops)|)
  {
    var filteredRows := FilteredReports(db.reports, db.zones, wardId);
    if |filteredRows| == 0 {
      NothingDispatched(db.runs, db.stops, db.nextRunId, db.nextStopId, db.reports, dist, osrm, date, wardId,
                        Assignees(DriverRoster(db.driverProfiles, db.userRoles)), demandScoreByZone, now);
      return 0, 0;
    }
    var assignees := Assignees(DriverRoster(db.driverProfiles, db.userRoles));
    var assignments := AssignBatches(demandScoreByZone, filteredRows, |assignees|);
    ghost var filled := Min(|assignees|, |filteredRows|);
    runsCreated, stopsCreated := CreateRuns(db, dist, osrm, date, wardId, assignees, assignments, filled, now);
  }

  /** The reports sorted by zone score and dealt round-robin over n assignees: n batches
      that hold exactly the reports, the first `min(n, |reports|)` of them non-empty. */
  method AssignBatches(demandScoreByZone: map<int, int>, filteredRows: seq<CitizenReport>, n: nat)
    returns (assignments: seq<seq<CitizenReport>>)
    requires n > 0
    ensures assignments == Deal(SortedReports(demandScoreByZone, filteredRows), n)
    ensures |assignments| == n
    ensures forall b :: 0 <= b < n ==> (assignments[b] != [] <==> b < Min(n, |filteredRows|))
    ensures |Flatten(assignments)| == |filteredRows| && IdsOf(Flatten(assignments)) == IdsOf(filteredRows)
  {
    var sortedReports := SortedReports(demandScoreByZone, filteredRows);
    assignments := DealRoundRobin(sortedReports, n);
    DealShape(sortedReports, n);
    IdsOfPermutation(sortedReports, filteredRows);
  }

  /** `generateDailyRuns({ runDate, wardId })`; `today` stands for `toYmdDate()`. */
  method GenerateDailyRuns(db: Store, dist: DistanceFn, osrm: seq<Coord> -> Option<real>,
                           runDate: Option<string>, today: string, wardId: Option<int>, now: int)
    returns (summary: RunSummary)
    requires db.Valid()
    modifies db`forecasts, db`nextForecastId, db`runs, db`nextRunId, db`stops, db`nextStopId, db`reports
    ensures db.Valid()
    ensures summary.runDate == runDate.GetOr(today)
    ensures (db.forecasts, db.nextForecastId)
      == Forecast.UpsertAll(old(db.forecasts), old(db.nextForecastId), db.zones, old(db.reports), summary.runDate, now)
    ensures var filtered := FilteredReports(old(db.reports), db.zones, wardId);
      var n := |Assignees(DriverRoster(db.driverProfiles, db.userRoles))|;
      && summary.stopsCreated == |filtered|
      && summary.runsCreated == Min(n, |filtered|)
      && FlippedExactly(old(db.reports), db.reports, IdsOf(filtered), now)
      && (filtered == [] ==> db.runs == old(db.runs) && db.stops == old(db.stops) && db.reports == old(db.reports))
    ensures var filtered := FilteredReports(old(db.reports), db.zones, wardId);
      var assignees := Assignees(DriverRoster(db.driverProfiles, db.userRoles));
      var scores := ScoreMap(SortBy(Forecast.Demands(db.zones, old(db.reports)), Forecast.ScoreFirst));
      BatchesPlanned(db.runs, |old(db.runs)|, db.stops, |old(db.stops)|, old(db.nextRunId), old(db.nextStopId), dist, osrm, summary.runDate, wardId,
                     assignees, Deal(SortedReports(scores, filtered), |assignees|), summary.runsCreated, now)
    ensures Extends(old(db.runs), db.runs, old(db.stops), db.stops, summary.runsCreated, summary.stopsCreated)
    ensures PlannedRuns(db.runs, |old(db.runs)|, summary.runDate, wardId, Assignees(DriverRoster(db.driverProfiles, db.userRoles)))
    ensures PendingStops(db.stops, |old(db.stops)|)
  {
    var date := runDate.GetOr(today);
    var demand := Forecast.RefreshZoneForecasts(db, date, now);
    var demandScoreByZone := ScoreMap(demand);
    var runsCreated, stopsCreated := DispatchReports(db, dist, osrm, date, wardId, demandScoreByZone, now);
    summary := RunSummary(date, runsCreated, stopsCreated);
  }
}
