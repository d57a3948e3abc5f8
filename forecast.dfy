/** Zone demand forecasting (src/lib/server/services/forecast.service.ts). Counts are
    exact integers; the forecast's confidence is kept in hundredths and its score in
    fiftieths, so every formula is exact in `int`. */
module Forecast {
  import opened Wrappers
  import opened Schema
  import opened Db
  import opened Sorting

  /** The number of open reports whose zone column equals `key` (`count(*)` of one group). */
  function CountOpen(reports: seq<CitizenReport>, key: Option<int>): (n: nat)
    ensures n <= |reports|
    ensures n > 0 <==> exists i :: 0 <= i < |reports| && reports[i].status == Open && reports[i].zoneId == key
  {
    if reports == [] then 0
    else
      var last := reports[|reports| - 1];
      assert forall i :: 0 <= i < |reports| - 1 ==> reports[..|reports| - 1][i] == reports[i];
      CountOpen(reports[..|reports| - 1], key) + (if last.status == Open && last.zoneId == key then 1 else 0)
  }

  /** The distinct zone columns of the open reports, in order of first appearance: the
      groups of `WHERE status = 'open' GROUP BY zone_id`. */
  function OpenZoneKeys(reports: seq<CitizenReport>): (keys: seq<Option<int>>)
    ensures forall i, j :: 0 <= i < j < |keys| ==> keys[i] != keys[j]
    ensures forall k :: k in keys <==> CountOpen(reports, k) > 0
  {
    if reports == [] then []
    else
      var last := reports[|reports| - 1];
      var keys := OpenZoneKeys(reports[..|reports| - 1]);
      if last.status == Open && last.zoneId !in keys then keys + [last.zoneId] else keys
  }

  /** One row of the grouped query. */
  datatype GroupRow = GroupRow(zoneId: Option<int>, count: nat)

  function OpenGroups(reports: seq<CitizenReport>): (groups: seq<GroupRow>)
    ensures forall i :: 0 <= i < |groups| ==> groups[i].count == CountOpen(reports, groups[i].zoneId) > 0
    ensures forall i, j :: 0 <= i < j < |groups| ==> groups[i].zoneId != groups[j].zoneId
    ensures forall k :: CountOpen(reports, k) > 0 <==> exists i :: 0 <= i < |groups| && groups[i].zoneId == k
  {
    var keys := OpenZoneKeys(reports);
    var groups := seq(|keys|, i requires 0 <= i < |keys| => GroupRow(keys[i], CountOpen(reports, keys[i])));
    assert forall k :: k in keys ==> exists i :: 0 <= i < |groups| && groups[i].zoneId == k by {
      forall k | k in keys ensures exists i :: 0 <= i < |groups| && groups[i].zoneId == k {
        var i :| 0 <= i < |keys| && keys[i] == k;
        assert groups[i].zoneId == k;
      }
    }
    groups
  }

  /** The open count a zone id reads from `openCountByZone`: only truthy (non-zero) zone ids
      are ever stored, and a missing entry reads as 0. */
  function OpenCountOf(reports: seq<CitizenReport>, zoneId: int): (n: nat)
    ensures zoneId == 0 ==> n == 0
    ensures n <= |reports|
  {
    if zoneId != 0 then CountOpen(reports, Some(zoneId)) else 0
  }

  /** The first loop: `openCountByZone` from the grouped rows, skipping the group of reports
      without a zone. */
  method CountOpenByZone(reports: seq<CitizenReport>) returns (openCountByZone: map<int, nat>)
    ensures forall z :: z in openCountByZone <==> z != 0 && CountOpen(reports, Some(z)) > 0
    ensures forall z :: z in openCountByZone ==> openCountByZone[z] == CountOpen(reports, Some(z))
  {
    var groups := OpenGroups(reports);
    openCountByZone := map[];
    for i := 0 to |groups|
      invariant forall z :: z in openCountByZone <==> z != 0 && exists j :: 0 <= j < i && groups[j].zoneId == Some(z)
      invariant forall z :: z in openCountByZone ==> openCountByZone[z] == CountOpen(reports, Some(z))
    {
      var row := groups[i];
      if row.zoneId.Some? && row.zoneId.value != 0 {
        openCountByZone := openCountByZone[row.zoneId.value := row.count];
      }
    }
  }

  /** `Math.round(120 + openCount * 65)`; the rounding changes nothing on an integer. */
  function PredictedVolumeKg(openCount: nat): (kg: int)
    ensures kg >= 120
    ensures kg - 120 == 65 * openCount
  {
    120 + openCount * 65
  }

  /** `Math.min(0.95, 0.5 + openCount * 0.05)`, in hundredths. */
  function ConfidencePct(openCount: nat): (pct: int)
    ensures 50 <= pct <= 95
    ensures pct == 95 <==> openCount >= 9
  {
    if 50 + openCount * 5 < 95 then 50 + openCount * 5 else 95
  }

  /** `openCount * 10 + predictedVolumeKg / 50`, times 50. */
  function Score50(openCount: nat): (s: int)
    ensures s == 565 * openCount + 120
  {
    openCount * 10 * 50 + PredictedVolumeKg(openCount)
  }

  /** More open reports always mean a strictly higher score, and never a lower confidence. */
  lemma ScoreStrictlyIncreasing(c1: nat, c2: nat)
    requires c1 < c2
    ensures Score50(c1) < Score50(c2)
    ensures ConfidencePct(c1) <= ConfidencePct(c2)
    ensures PredictedVolumeKg(c1) < PredictedVolumeKg(c2)
  {
  }

  datatype ZoneDemand = ZoneDemand(zoneId: int, zoneName: string, score50: int, predictedVolumeKg: int, confidencePct: int)

  function DemandFor(z: Zone, openCount: nat): (d: ZoneDemand)
    ensures d.zoneId == z.id && d.zoneName == z.name
  {
    ZoneDemand(z.id, z.name, Score50(openCount), PredictedVolumeKg(openCount), ConfidencePct(openCount))
  }

  /** The `forecasts` array the second loop pushes, one entry per zone in table order. */
  function Demands(zones: seq<Zone>, reports: seq<CitizenReport>): (ds: seq<ZoneDemand>)
    ensures |ds| == |zones|
    ensures forall i :: 0 <= i < |zones| ==> ds[i] == DemandFor(zones[i], OpenCountOf(reports, zones[i].id))
  {
    seq(|zones|, i requires 0 <= i < |zones| => DemandFor(zones[i], OpenCountOf(reports, zones[i].id)))
  }

  /** The comparator `b.score - a.score`: a goes first when its score is not lower. */
  predicate ScoreFirst(a: ZoneDemand, b: ZoneDemand) {
    a.score50 >= b.score50
  }

  /** The upserts of the second loop, one per zone in table order, with the counter after them. */
  function UpsertAll(forecasts: seq<WasteForecast>, nextId: int, zones: seq<Zone>, reports: seq<CitizenReport>,
                     date: string, now: int): (r: (seq<WasteForecast>, int))
    ensures |forecasts| <= |r.0| <= |forecasts| + |zones|
    ensures r.1 == nextId + (|r.0| - |forecasts|)
  {
    if zones == [] then (forecasts, nextId)
    else
      var before := UpsertAll(forecasts, nextId, zones[..|zones| - 1], reports, date, now);
      var z := zones[|zones| - 1];
      var c := OpenCountOf(reports, z.id);
      Upserted(before.0, before.1, z.id, date, PredictedVolumeKg(c), ConfidencePct(c), now)
  }

  /** One turn of the second loop: the upsert and the pushed entry for zone `i` extend the
      state for the first `i` zones to the state for the first `i + 1`. */
  lemma RefreshStep(f0: seq<WasteForecast>, n0: int, zones: seq<Zone>, reports: seq<CitizenReport>,
                    date: string, now: int, i: nat, before: (seq<WasteForecast>, int),
                    after: (seq<WasteForecast>, int), forecasts: seq<ZoneDemand>)
    requires i < |zones|
    requires before == UpsertAll(f0, n0, zones[..i], reports, date, now)
    requires var c := OpenCountOf(reports, zones[i].id);
      after == Upserted(before.0, before.1, zones[i].id, date, PredictedVolumeKg(c), ConfidencePct(c), now)
    requires forecasts == Demands(zones[..i], reports)
    ensures after == UpsertAll(f0, n0, zones[..i + 1], reports, date, now)
    ensures var c := OpenCountOf(reports, zones[i].id);
      forecasts + [ZoneDemand(zones[i].id, zones[i].name, Score50(c), PredictedVolumeKg(c), ConfidencePct(c))]
        == Demands(zones[..i + 1], reports)
  {
    assert zones[..i + 1][..i] == zones[..i];
  }

  /** `refreshZoneForecasts(forecastDate)`: one upsert per zone, then the demands sorted by
      descending score (a stable sort, so equal scores keep zone table order). */
  method RefreshZoneForecasts(db: Store, forecastDate: string, now: int) returns (result: seq<ZoneDemand>)
    requires db.Valid()
    modifies db`forecasts, db`nextForecastId
    ensures db.Valid()
    ensures (db.forecasts, db.nextForecastId)
      == UpsertAll(old(db.forecasts), old(db.nextForecastId), db.zones, db.reports, forecastDate, now)
    ensures result == SortBy(Demands(db.zones, db.reports), ScoreFirst)
  {
    var openCountByZone := CountOpenByZone(db.reports);
    var zones := db.zones;
    var forecasts: seq<ZoneDemand> := [];
    ghost var f0, n0 := db.forecasts, db.nextForecastId;
    for i := 0 to |zones|
      invariant db.Valid()
      invariant zones == db.zones
      invariant (db.forecasts, db.nextForecastId) == UpsertAll(f0, n0, zones[..i], db.reports, forecastDate, now)
      invariant forecasts == Demands(zones[..i], db.reports)
    {
      var currentZone := zones[i];
      var openCount := if currentZone.id in openCountByZone then openCountByZone[currentZone.id] else 0;
      assert openCount == OpenCountOf(db.reports, currentZone.id);
      var predictedVolumeKg := PredictedVolumeKg(openCount);
      var confidence := ConfidencePct(openCount);
      var score := Score50(openCount);
      ghost var before := (db.forecasts, db.nextForecastId);
      db.UpsertForecast(currentZone.id, forecastDate, predictedVolumeKg, confidence, now);
      RefreshStep(f0, n0, zones, db.reports, forecastDate, now, i, before, (db.forecasts, db.nextForecastId), forecasts);
      forecasts := forecasts + [ZoneDemand(currentZone.id, currentZone.name, score, predictedVolumeKg, confidence)];
    }
    assert zones[..|zones|] == zones;
    result := SortBy(forecasts, ScoreFirst);
  }

  /** The returned list has exactly one entry per zone, and it is sorted by descending score. */
  lemma RefreshResultSortedAndComplete(zones: seq<Zone>, reports: seq<CitizenReport>)
    ensures var r := SortBy(Demands(zones, reports), ScoreFirst);
      && |r| == |zones|
      && multiset(r) == multiset(Demands(zones, reports))
      && SortedBy(r, ScoreFirst)
      && forall i :: 0 <= i < |zones| ==> exists j :: 0 <= j < |r| && r[j].zoneId == zones[i].id
  {
    var ds := Demands(zones, reports);
    var r := SortBy(ds, ScoreFirst);
    SortBySorted(ds, ScoreFirst);
    forall i | 0 <= i < |zones| ensures exists j :: 0 <= j < |r| && r[j].zoneId == zones[i].id {
      assert ds[i] in multiset(r);
      var j :| 0 <= j < |r| && r[j] == ds[i];
    }
  }

  /** A report without a zone counts toward no zone: adding one changes no zone's count. */
  lemma {:induction false} NullZoneNotCounted(reports: seq<CitizenReport>, r: CitizenReport, zoneId: int)
    requires r.zoneId.None?
    ensures OpenCountOf(reports + [r], zoneId) == OpenCountOf(reports, zoneId)
  {
    assert (reports + [r])[..|reports|] == reports;
  }

  /** Which (zone, date) rows hold which values. */
  predicate Records(forecasts: seq<WasteForecast>, zoneId: int, date: string, volume: int, confidencePct: int) {
    match FindForecast(forecasts, zoneId, date)
    case None => false
    case Some(k) => forecasts[k].predictedVolumeKg == volume && forecasts[k].confidencePct == confidencePct
  }

  /** A table whose first rows have the keys of `a`, and whose further rows do not have
      the key looked for, finds the same row for that key as `a`. */
  lemma {:induction false} FindForecastSameKeys(a: seq<WasteForecast>, b: seq<WasteForecast>, zoneId: int, date: string)
    requires |a| <= |b|
    requires forall i :: 0 <= i < |a| ==> b[i].zoneId == a[i].zoneId && b[i].forecastDate == a[i].forecastDate
    requires forall i :: |a| <= i < |b| ==> !(b[i].zoneId == zoneId && b[i].forecastDate == date)
    ensures FindForecast(b, zoneId, date) == FindForecast(a, zoneId, date)
  {
    if a != [] && !(a[0].zoneId == zoneId && a[0].forecastDate == date) {
      FindForecastSameKeys(a[1..], b[1..], zoneId, date);
    }
  }

  /** An upsert on one zone leaves the row found for any other zone, and its values, as they were. */
  lemma UpsertedKeepsOtherKey(forecasts: seq<WasteForecast>, nextId: int, zoneId: int, date: string,
                              volume: int, confidencePct: int, now: int, otherZone: int)
    requires otherZone != zoneId
    ensures var t := Upserted(forecasts, nextId, zoneId, date, volume, confidencePct, now).0;
      forall v, c :: Records(forecasts, otherZone, date, v, c) ==> Records(t, otherZone, date, v, c)
  {
    var t := Upserted(forecasts, nextId, zoneId, date, volume, confidencePct, now).0;
    FindForecastSameKeys(forecasts, t, otherZone, date);
  }

  /** With distinct zone ids, after the loop every zone has a row for the date holding the
      volume and confidence computed from its open count. */
  lemma {:induction false} UpsertAllRecordsEveryZone(forecasts: seq<WasteForecast>, nextId: int, zones: seq<Zone>,
                                                     reports: seq<CitizenReport>, date: string, now: int)
    requires forall i, j :: 0 <= i < j < |zones| ==> zones[i].id != zones[j].id
    ensures var t := UpsertAll(forecasts, nextId, zones, reports, date, now).0;
      forall i :: 0 <= i < |zones| ==>
        var c := OpenCountOf(reports, zones[i].id);
        Records(t, zones[i].id, date, PredictedVolumeKg(c), ConfidencePct(c))
  {
    if zones != [] {
      var init := zones[..|zones| - 1];
      var before := UpsertAll(forecasts, nextId, init, reports, date, now);
      var z := zones[|zones| - 1];
      var c := OpenCountOf(reports, z.id);
      var t := UpsertAll(forecasts, nextId, zones, reports, date, now).0;
      UpsertAllRecordsEveryZone(forecasts, nextId, init, reports, date, now);
      forall i | 0 <= i < |zones|
        ensures Records(t, zones[i].id, date, PredictedVolumeKg(OpenCountOf(reports, zones[i].id)), ConfidencePct(OpenCountOf(reports, zones[i].id)))
      {
        if i == |zones| - 1 {
          UpsertedRecordsKey(before.0, before.1, z.id, date, PredictedVolumeKg(c), ConfidencePct(c), now);
        } else {
          assert zones[i] == init[i];
          UpsertedKeepsOtherKey(before.0, before.1, z.id, date, PredictedVolumeKg(c), ConfidencePct(c), now, zones[i].id);
        }
      }
    }
  }

  /** After an upsert, its key holds the values it wrote. */
  lemma UpsertedRecordsKey(forecasts: seq<WasteForecast>, nextId: int, zoneId: int, date: string,
                           volume: int, confidencePct: int, now: int)
    ensures Records(Upserted(forecasts, nextId, zoneId, date, volume, confidencePct, now).0, zoneId, date, volume, confidencePct)
  {
    var t := Upserted(forecasts, nextId, zoneId, date, volume, confidencePct, now).0;
    match FindForecast(forecasts, zoneId, date)
    case None =>
      FindForecastAppend(forecasts, WasteForecast(nextId, zoneId, date, volume, confidencePct, now));
    case Some(k) =>
      FindForecastSameKeys(forecasts, t, zoneId, date);
  }

  /** Appending a row for a key no existing row has makes that row the one found. */
  lemma {:induction false} FindForecastAppend(forecasts: seq<WasteForecast>, row: WasteForecast)
    requires FindForecast(forecasts, row.zoneId, row.forecastDate).None?
    ensures FindForecast(forecasts + [row], row.zoneId, row.forecastDate) == Some(|forecasts|)
  {
    if forecasts != [] {
      assert (forecasts + [row])[1..] == forecasts[1..] + [row];
      FindForecastAppend(forecasts[1..], row);
    }
  }

  /** Two tables that differ at most in their rows' creation times. */
  predicate SameUpToCreatedAt(a: seq<WasteForecast>, b: seq<WasteForecast>) {
    |a| == |b| && forall i :: 0 <= i < |a| ==> a[i].(createdAt := 0) == b[i].(createdAt := 0)
  }

  /** Upserting the values a key already holds changes only that row's creation time. */
  lemma UpsertedSameValues(forecasts: seq<WasteForecast>, nextId: int, zoneId: int, date: string,
                           volume: int, confidencePct: int, now: int)
    requires Records(forecasts, zoneId, date, volume, confidencePct)
    ensures var t := Upserted(forecasts, nextId, zoneId, date, volume, confidencePct, now);
      SameUpToCreatedAt(t.0, forecasts) && t.1 == nextId
  {
  }

  /** A second pass over the zones, with the same open counts, finds every row the first
      pass wrote: it rewrites only their creation times, and allocates no new row. */
  lemma {:induction false} UpsertAllAgain(forecasts: seq<WasteForecast>, nextId: int, zones: seq<Zone>,
                                          reports: seq<CitizenReport>, date: string, now: int)
    requires forall i :: 0 <= i < |zones| ==>
      var c := OpenCountOf(reports, zones[i].id);
      Records(forecasts, zones[i].id, date, PredictedVolumeKg(c), ConfidencePct(c))
    ensures var t := UpsertAll(forecasts, nextId, zones, reports, date, now);
      SameUpToCreatedAt(t.0, forecasts) && t.1 == nextId
  {
    if zones != [] {
      var init := zones[..|zones| - 1];
      var before := UpsertAll(forecasts, nextId, init, reports, date, now);
      var z := zones[|zones| - 1];
      var c := OpenCountOf(reports, z.id);
      assert forall i :: 0 <= i < |init| ==> init[i] == zones[i];
      UpsertAllAgain(forecasts, nextId, init, reports, date, now);
      KeepsRecords(forecasts, before.0, z.id, date, PredictedVolumeKg(c), ConfidencePct(c));
      UpsertedSameValues(before.0, before.1, z.id, date, PredictedVolumeKg(c), ConfidencePct(c), now);
    }
  }

  /** Tables equal up to creation times record the same values. */
  lemma KeepsRecords(a: seq<WasteForecast>, b: seq<WasteForecast>, zoneId: int, date: string, volume: int, confidencePct: int)
    requires SameUpToCreatedAt(b, a)
    requires Records(a, zoneId, date, volume, confidencePct)
    ensures Records(b, zoneId, date, volume, confidencePct)
  {
    var k := FindForecast(a, zoneId, date).value;
    assert forall i :: 0 <= i < |a| ==> b[i].zoneId == a[i].zoneId && b[i].forecastDate == a[i].forecastDate by {
      forall i | 0 <= i < |a| ensures b[i].zoneId == a[i].zoneId && b[i].forecastDate == a[i].forecastDate {
        assert b[i].(createdAt := 0).zoneId == b[i].zoneId;
        assert a[i].(createdAt := 0).zoneId == a[i].zoneId;
      }
    }
    FindForecastSameKeys(a, b, zoneId, date);
    assert b[k].(createdAt := 0).predictedVolumeKg == b[k].predictedVolumeKg;
    assert a[k].(createdAt := 0).predictedVolumeKg == a[k].predictedVolumeKg;
  }

  /** Running the refresh twice with unchanged open counts leaves the same forecast rows,
      apart from their creation times, and allocates nothing on the second run. */
  lemma RefreshIdempotent(forecasts: seq<WasteForecast>, nextId: int, zones: seq<Zone>,
                          reports: seq<CitizenReport>, date: string, now1: int, now2: int)
    requires forall i, j :: 0 <= i < j < |zones| ==> zones[i].id != zones[j].id
    ensures var first := UpsertAll(forecasts, nextId, zones, reports, date, now1);
      var second := UpsertAll(first.0, first.1, zones, reports, date, now2);
      SameUpToCreatedAt(second.0, first.0) && second.1 == first.1
  {
    var first := UpsertAll(forecasts, nextId, zones, reports, date, now1);
    UpsertAllRecordsEveryZone(forecasts, nextId, zones, reports, date, now1);
    UpsertAllAgain(first.0, first.1, zones, reports, date, now2);
  }
}
