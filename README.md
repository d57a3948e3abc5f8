# Waste-collection dispatch and route lifecycle, in Dafny

This project models the operational core of a municipal waste-collection platform.
Citizens file location-tagged reports with a photo. A daily optimizer turns the backlog of
open reports into collection runs, one per driver, each with stops ordered by a
nearest-neighbour walk. Drivers then report stop by stop, and those updates move runs from
planned to in progress to completed. A few authorisation and validation rules sit around
this core. The model proves properties of each step.

The relational store is a class, `Db.Store`. It holds one sequence of rows per table in
insertion order, with one auto-increment counter per table. Each of its methods is one SQL
statement the services issue. `Db.Store.Valid()` collects the key and reference facts the
schema promises: unique ids, unique (run, sequence) for stops, unique (zone, date) for
forecasts, one role row per user, completion time iff a stop is done. Every state-changing
method preserves them.

Modules follow the source files:

- `Geo` covers `orderByNearestNeighbor`.
- `Optimizer` covers `estimateDistance` and `generateDailyRuns`.
- `Forecast` covers `refreshZoneForecasts`.
- `Driver` covers `getAssignedRun`, `submitStopUpdate` and `submitRoadConditionIssue`.
- `Authz` covers the role rank, the home path, `ensureUserRole` and the guards.
- `Reporting` covers report creation, listing, lookup and resolution.
- `Storage` covers the photo upload rules.
- `CitizenReportsApi` and `DriverOpsApi` cover the two remote-function files.

Shared pieces:

- `Schema` holds the enums and rows of `src/lib/server/db/schema.ts`.
- `Text` holds JavaScript's `trim`, ASCII `toLowerCase`, `startsWith`, trailing-slash stripping and decimal rendering.
- `Js` holds JavaScript numbers and `Number(value)`.
- `Sorting` is a stable insertion sort, standing for `Array.prototype.sort` and `ORDER BY`.
- `Wrappers` holds `Option` and `Result`. A `Result` failure is an HTTP error, a redirect or an internal error.

Values that would come from the outside world are parameters:

- the distance between two points (`haversineDistanceKm`);
- the OSRM routing answer;
- `Date.now()`, `randomUUID()` and the run date;
- the S3 put result;
- the way JavaScript's `Number` reads a string.

The model follows the code as written, including where a failure comes after a write.
`createCitizenReport` inserts the report before it resolves the photo
(`src/lib/server/services/reporting.service.ts:71-91`). A missing photo or a failed upload
therefore fails the call with the report already stored, and nothing undoes the insert.
`Reporting.CreateCitizenReport` states exactly that.

## Model

| member | source | states |
|---|---|---|
| Schema.ParseReportStatus | src/lib/server/db/schema.ts:95 | a parsed report status has exactly the given name |
| Schema.ReportStatusRoundTrip | src/lib/server/services/reporting.service.ts:8 | every report status parses back from its name |
| Schema.ParseCategory | src/lib/server/db/schema.ts:87-88 | a parsed category has exactly the given name |
| Schema.CategoryRoundTrip | src/lib/server/services/reporting.service.ts:7 | every category parses back from its name |
| Schema.ParseStopStatus | src/lib/server/services/driver.service.ts:12-13 | a parsed stop status has exactly the given name |
| Schema.StopStatusRoundTrip | src/lib/server/db/schema.ts:180 | every stop status parses back from its name |
| Schema.ParseSeverity | src/lib/server/db/schema.ts:130 | a parsed severity has exactly the given name |
| Schema.SeverityRoundTrip | src/lib/api/driver-ops.remote.ts:9 | every severity parses back from its name |
| Text.TrimStart | src/lib/server/services/driver.service.ts:61 | the result is a suffix of the input, starts with a non-whitespace character, and only whitespace was removed |
| Text.TrimEnd | src/lib/server/services/storage.service.ts:38 | the result is a prefix of the input, ends with a non-whitespace character, and only whitespace was removed |
| Text.Trim | src/lib/server/services/reporting.service.ts:66 | the result is no longer than the input and neither starts nor ends with whitespace |
| Text.TrimIsInfix | src/lib/server/services/driver.service.ts:129 | the trimmed string is a slice of the input with only whitespace before and after it |
| Text.TrimIdempotent | src/lib/server/services/driver.service.ts:105 | trimming twice is trimming once |
| Text.TrimEmptyIffBlank | src/lib/server/services/driver.service.ts:121 | the trimmed string is empty exactly when the input is all whitespace |
| Text.LowerChar | src/lib/server/services/storage.service.ts:38 | an upper-case ASCII letter maps to its lower-case letter; every other character is kept |
| Text.Lower | src/lib/server/services/storage.service.ts:17 | same length, each character lowercased in place |
| Text.LowerIdempotent | src/lib/server/services/storage.service.ts:17 | a lowercased string has no upper-case ASCII letter, and lowercasing it again changes nothing |
| Text.StripTrailingSlashes | src/lib/server/services/storage.service.ts:62 | the result is a prefix that does not end in `/`, and everything removed is `/` |
| Text.NatToString | src/lib/server/services/storage.service.ts:57 | the rendering of a timestamp is a non-empty string of decimal digits |
| Text.NatToStringRoundTrip | src/lib/server/services/storage.service.ts:57 | the digits read back as the timestamp, with no leading zero except for 0 |
| Js.ToJsNumber | src/lib/api/citizen-reports.remote.ts:17 | `Number(value)`: undefined is NaN, null is 0, a number is itself, a string is what the parser reads |
| Js.IntegralValue | src/lib/api/driver-ops.remote.ts:36 | there is an integer exactly when the number is finite with no fraction, and it equals the number |
| Js.RowKey | src/lib/api/citizen-reports.remote.ts:83 | the key is at least 1 exactly when the number is a positive integer, and then equals it; otherwise it is 0 |
| Sorting.Insert | src/lib/server/services/forecast.service.ts:64 | inserting adds exactly the one element |
| Sorting.SortBy | src/lib/server/services/forecast.service.ts:64 | the sorted list is a permutation of the input |
| Sorting.SortBySorted | src/lib/server/services/optimizer.service.ts:71-76 | under a total preorder the result is sorted |
| Sorting.InsertSorted | src/lib/server/services/reporting.service.ts:114 | inserting into a sorted list keeps it sorted |
| Db.ReportsWithStatus | src/lib/server/services/reporting.service.ts:136-143 | every report with the id gets the new status and update time; every other report is unchanged |
| Db.ReportsWithId | src/lib/server/services/reporting.service.ts:143 | the returned rows are exactly the table rows with the id |
| Db.StopsUpdated | src/lib/server/services/driver.service.ts:57-66 | only stops matching both the stop id and the run id are updated |
| Db.FindStop | src/lib/server/services/driver.service.ts:65-68 | the first stop with both ids, or none when there is no such stop |
| Db.FindRun | src/lib/server/services/driver.service.ts:50-51 | the first run with the id, or none when there is no such run |
| Db.RunsStarted | src/lib/server/services/driver.service.ts:71-78 | the run with the id becomes in progress with the given start time; other runs unchanged |
| Db.RunsCompleted | src/lib/server/services/driver.service.ts:88-95 | the run with the id becomes completed at `now`; other runs unchanged |
| Db.RunsWithDistance | src/lib/server/services/optimizer.service.ts:132-138 | the run with the id gets the planned distance; other runs unchanged |
| Db.UpdatedStop | src/lib/server/services/driver.service.ts:57-66 | the stop keeps its id, run, sequence, source report, zone, coordinates, action and creation time, and takes the new status, notes and completion time |
| Db.Upserted | src/lib/server/services/forecast.service.ts:38-53 | an existing (zone, date) row is updated in place and no id is used; otherwise one row is appended and the counter advances by one |
| Db.WithStopIds | src/lib/server/services/optimizer.service.ts:126 | inserted stops are numbered consecutively from the table counter |
| Db.FindForecast | src/lib/server/db/schema.ts:221 | the row holding the (zone, date) key, or none when no row holds it |
| Db.RoleOf | src/lib/server/services/authz.service.ts:26-34 | none exactly when the user has no role row; otherwise a role the user's row holds |
| Db.UpsertKeepsKeysUnique | src/lib/server/services/forecast.service.ts:46-53 | an upsert keeps (zone, date) unique and leaves a row for its key |
| Db.StopsUpdatedKeepsInvariants | src/lib/server/db/schema.ts:188 | a stop update keeps stop ids, run references, unique (run, sequence) and completion iff done |
| Db.Store.InsertUserRole | src/lib/server/services/authz.service.ts:40-44 | a user who already has a role row is refused by the unique key; otherwise one row is appended with the next id |
| Db.Store.InsertReport | src/lib/server/services/reporting.service.ts:71-82 | one open report is appended with the next id and the time as creation and update time |
| Db.Store.InsertPhoto | src/lib/server/services/reporting.service.ts:93-100 | one photo row is appended with the next id |
| Db.Store.SetReportStatus | src/lib/server/services/reporting.service.ts:136-143 | the report table becomes `ReportsWithStatus` of the old one; the returned rows are those with the id |
| Db.Store.UpsertForecast | src/lib/server/services/forecast.service.ts:38-53 | the forecast table and counter become the upsert of the old ones |
| Db.Store.InsertRun | src/lib/server/services/optimizer.service.ts:89-99 | one planned run with distance 0 is appended with the next id |
| Db.Store.SetRunDistance | src/lib/server/services/optimizer.service.ts:132-138 | the run table becomes `RunsWithDistance` of the old one |
| Db.Store.StartRun | src/lib/server/services/driver.service.ts:70-79 | the run table becomes `RunsStarted` of the old one |
| Db.Store.CompleteRun | src/lib/server/services/driver.service.ts:87-96 | the run table becomes `RunsCompleted` of the old one |
| Db.Store.InsertStops | src/lib/server/services/optimizer.service.ts:126 | the stops are appended, numbered from the counter, and the counter advances by their number |
| Db.Store.UpdateStop | src/lib/server/services/driver.service.ts:57-66 | the stop table becomes `StopsUpdated` of the old one; the returned row is the updated matching stop, if any |
| Db.Store.AppendEvent | src/lib/server/services/driver.service.ts:98-107 | exactly one event is appended to the log, with the next id |
| Db.Store.InsertRoadIssue | src/lib/server/services/driver.service.ts:123-133 | one road-condition record is appended with the next id |
| Geo.NearestUpTo | src/lib/server/services/geo.service.ts:33-43 | after n candidates the index is a nearest one among them, and every earlier candidate is strictly farther |
| Geo.NearestIndex | src/lib/server/services/geo.service.ts:33-43 | the chosen index is a nearest remaining point, with every earlier point strictly farther |
| Geo.NearestIndexUnique | src/lib/server/services/geo.service.ts:36-43 | any index that is nearest with all earlier points strictly farther is the chosen index |
| Geo.Splice | src/lib/server/services/geo.service.ts:45 | removing index k keeps the other points in order |
| Geo.SplicePermutes | src/lib/server/services/geo.service.ts:45 | the removed point plus the rest is the original multiset |
| Geo.GreedyFrom | src/lib/server/services/geo.service.ts:31-46 | the walk appends as many points as remain; each round shrinks `remaining` by one |
| Geo.GreedyFromPermutes | src/lib/server/services/geo.service.ts:31-46 | the walk appends every remaining point exactly once |
| Geo.NearestNeighborOrder | src/lib/server/services/geo.service.ts:25-49 | same length as the input, and the first input point stays first |
| Geo.NearestNeighborPermutes | src/lib/server/services/geo.service.ts:28-45 | the order is a permutation of the input: nothing is dropped or duplicated |
| Geo.GreedyFromHeadIsNearest | src/lib/server/services/geo.service.ts:31-45 | the first point taken is at least as near to the current point as any later one |
| Geo.GreedyFromChoosesNearest | src/lib/server/services/geo.service.ts:31-45 | each appended point is a nearest one, from the point before it, among all points still remaining |
| Geo.NearestNeighborIsGreedy | src/lib/server/services/geo.service.ts:31-45 | for more than two points, each later point minimises the distance from its predecessor over all points after it |
| Geo.GreedyTieGoesToEarliest | src/lib/server/services/geo.service.ts:33-43 | the point taken is a nearest point with every earlier remaining point strictly farther: ties go to the earliest |
| Geo.ShortInputAgreesWithGreedy | src/lib/server/services/geo.service.ts:26 | for one or two points, returning the input unchanged is what the walk would give |
| Geo.FindNearest | src/lib/server/services/geo.service.ts:33-43 | the loop from `+infinity` with a strict `<` settles on the chosen nearest index |
| Geo.GreedyFromStep | src/lib/server/services/geo.service.ts:31-46 | one round appends the nearest point and continues the walk from it without it |
| Geo.OrderByNearestNeighbor | src/lib/server/services/geo.service.ts:25-49 | the imperative shift/splice/push loop returns the nearest-neighbour order |
| Forecast.OpenZoneKeys | src/lib/server/services/forecast.service.ts:15-22 | the group keys are distinct and are exactly the zones with an open report |
| Forecast.CountOpen | src/lib/server/services/forecast.service.ts:15-22 | the count is at most the number of reports, and is positive exactly when some open report has the zone column |
| Forecast.OpenGroups | src/lib/server/services/forecast.service.ts:15-22 | one group per zone with an open report, with its count of open reports |
| Forecast.CountOpenByZone | src/lib/server/services/forecast.service.ts:24-27 | the map's keys are the non-null, non-zero zones with open reports, each mapped to its count |
| Forecast.OpenCountOf | src/lib/server/services/forecast.service.ts:33 | the count read for a zone id; 0 for the zone id 0, which is never stored, and never more than the number of reports |
| Forecast.PredictedVolumeKg | src/lib/server/services/forecast.service.ts:34 | the volume is 120 + 65 times the open count |
| Forecast.ConfidencePct | src/lib/server/services/forecast.service.ts:35 | confidence in hundredths is between 50 and 95, and is 95 exactly from 9 open reports on |
| Forecast.Score50 | src/lib/server/services/forecast.service.ts:36 | fifty times the score is 565 times the count plus 120 |
| Forecast.ScoreStrictlyIncreasing | src/lib/server/services/forecast.service.ts:34-36 | more open reports give a strictly higher score and volume, and no lower confidence |
| Forecast.DemandFor | src/lib/server/services/forecast.service.ts:55-61 | the demand entry carries the zone's id and name |
| Forecast.Demands | src/lib/server/services/forecast.service.ts:32-62 | one entry per zone, in zone order, each from that zone's open count, zero included |
| Forecast.UpsertAll | src/lib/server/services/forecast.service.ts:32-53 | the loop never shrinks the table and adds at most one row per zone, and the counter advances by exactly the rows added |
| Forecast.RefreshZoneForecasts | src/lib/server/services/forecast.service.ts:14-65 | the forecast table is the upsert of every zone's row, and the result is the demand list sorted by score |
| Forecast.RefreshResultSortedAndComplete | src/lib/server/services/forecast.service.ts:55-64 | the result has one entry per zone, is a permutation of the demand list, and is sorted by descending score |
| Forecast.NullZoneNotCounted | src/lib/server/services/forecast.service.ts:26 | a report with no zone adds to no zone's count |
| Forecast.UpsertedKeepsOtherKey | src/lib/server/services/forecast.service.ts:38-53 | an upsert leaves every other zone's recorded forecast in place |
| Forecast.UpsertedRecordsKey | src/lib/server/services/forecast.service.ts:38-53 | after an upsert the (zone, date) row records the new volume and confidence |
| Forecast.UpsertAllRecordsEveryZone | src/lib/server/services/forecast.service.ts:32-53 | after the loop every zone's row for the date records the formulas for its count |
| Forecast.UpsertedSameValues | src/lib/server/services/forecast.service.ts:46-53 | re-upserting recorded values changes only creation times and allocates no id |
| Forecast.UpsertAllAgain | src/lib/server/services/forecast.service.ts:32-53 | when every zone's values are already recorded, the loop changes only creation times and adds no row |
| Forecast.RefreshIdempotent | src/lib/server/services/forecast.service.ts:32-64 | running twice with unchanged reports yields the same rows apart from creation times, and no new row |
| Optimizer.EstimateDistance | src/lib/server/services/optimizer.service.ts:24-31 | the loop total is the sum of consecutive distances, which is 0 for fewer than two points |
| Optimizer.PathLength | src/lib/server/services/optimizer.service.ts:24-31 | fewer than two points have length 0 |
| Optimizer.PathLengthReversed | src/lib/server/services/optimizer.service.ts:24-31 | for a haversine-like distance the estimate is non-negative and the same travelled backwards |
| Optimizer.ZoneOf | src/lib/server/services/optimizer.service.ts:44 | the left join finds the report's zone, or none when the zone id is null or matches no zone |
| Optimizer.KeptByWard | src/lib/server/services/optimizer.service.ts:47-50 | without a truthy ward id every report is kept; under one, a report with no zone is dropped and a kept report lies in a zone of that ward |
| Optimizer.FilteredReports | src/lib/server/services/optimizer.service.ts:38-50 | the kept reports are exactly the open reports that pass the ward filter |
| Optimizer.WardFilterDropsOthers | src/lib/server/services/optimizer.service.ts:47-50 | under a truthy ward id, a report with no zone, or in another ward's zone, is dropped |
| Optimizer.RoleMatches | src/lib/server/services/optimizer.service.ts:60-66 | a profile yields its user exactly when it is active and the user has a driver role row |
| Optimizer.DriverRoster | src/lib/server/services/optimizer.service.ts:60-66 | the roster is exactly the active profiles joined with driver role rows |
| Optimizer.Assignees | src/lib/server/services/optimizer.service.ts:68 | with no drivers there is exactly one bucket, for no driver; otherwise one bucket per driver, in order |
| Optimizer.ScoreMap | src/lib/server/services/optimizer.service.ts:36 | the map's keys are exactly the forecast zones |
| Optimizer.ScoreMapValues | src/lib/server/services/optimizer.service.ts:36 | with distinct zones, the map gives each zone its score |
| Optimizer.ScoreOf | src/lib/server/services/optimizer.service.ts:71-76 | the score of the report's zone, or 0 when the zone has none or the report has no zone |
| Optimizer.ReportFirst | src/lib/server/services/optimizer.service.ts:71-76 | a report goes first only with a score no lower, and goes after only when the other has a higher score or the same score and an earlier creation time |
| Optimizer.SortedReports | src/lib/server/services/optimizer.service.ts:71-76 | the sorted reports are a permutation of the filtered ones |
| Optimizer.SortedReportsOrdered | src/lib/server/services/optimizer.service.ts:71-76 | descending zone score, with a missing score as 0, then ascending creation time |
| Optimizer.Deal | src/lib/server/services/optimizer.service.ts:78-80 | n buckets, bucket b holding the reports at sorted positions congruent to b mod n |
| Optimizer.DealRoundRobin | src/lib/server/services/optimizer.service.ts:78-80 | the `forEach` pushing report k into bucket k mod n builds exactly those buckets |
| Optimizer.BucketSize | src/lib/server/services/optimizer.service.ts:78-80 | bucket b has length/n reports, plus one when b is below length mod n |
| Optimizer.BucketsBalanced | src/lib/server/services/optimizer.service.ts:78-80 | bucket sizes differ by at most one, and earlier buckets are never smaller |
| Optimizer.BucketNonEmpty | src/lib/server/services/optimizer.service.ts:78-80 | bucket b is non-empty exactly when b is below the number of reports |
| Optimizer.BucketPosition | src/lib/server/services/optimizer.service.ts:78-80 | the report at sorted index k is at position k/n of bucket k mod n |
| Optimizer.DealPermutes | src/lib/server/services/optimizer.service.ts:78-80 | the buckets together hold exactly the sorted reports |
| Optimizer.DealPushed | src/lib/server/services/optimizer.service.ts:79 | dealing one more report appends it to bucket k mod n |
| Optimizer.DealShape | src/lib/server/services/optimizer.service.ts:78-80 | the buckets hold as many reports as were dealt, with the same ids, and the first min(n, count) are the non-empty ones |
| Optimizer.AssignBatches | src/lib/server/services/optimizer.service.ts:68-80 | the buckets are the round-robin deal of the sorted reports, n of them, the first min(n, count) non-empty, holding exactly the filtered reports |
| Optimizer.PointsOf | src/lib/server/services/optimizer.service.ts:101-107 | one point per report, carrying its id and coordinates |
| Optimizer.StopRow | src/lib/server/services/optimizer.service.ts:113-124 | a stop on the run with the given sequence, naming the report, pending, not completed, `collect`, at the report's coordinates and zone |
| Optimizer.FindReport | src/lib/server/services/optimizer.service.ts:109-111 | the lookup finds a batch report with the id, or none exactly when no batch report has it |
| Optimizer.StopsFor | src/lib/server/services/optimizer.service.ts:110-124 | stops exist exactly when every ordered point finds its report; stop j is for that report with sequence j + 1 |
| Optimizer.SourceIds | src/lib/server/services/optimizer.service.ts:149 | the source report ids of the stops, in stop order |
| Optimizer.OrderedLookupsSucceed | src/lib/server/services/optimizer.service.ts:112 | after ordering, every point finds its report, so "Missing report" is never thrown |
| Optimizer.OrderedStopsCoverBatch | src/lib/server/services/optimizer.service.ts:101-124 | the stops of a batch name exactly the batch's reports as their sources |
| Optimizer.CoordsOf | src/lib/server/services/optimizer.service.ts:128-130 | the stops' coordinates, in stop order |
| Optimizer.PlannedKmFallback | src/lib/server/services/optimizer.service.ts:128-130 | the routed distance when the routing service answers; otherwise the estimate, never negative and 0 for fewer than two stops |
| Optimizer.MarkAllFlips | src/lib/server/services/optimizer.service.ts:140-159 | marking a list of ids sets exactly the reports with those ids to in review at `now` |
| Optimizer.MarkAllKeepsRows | src/lib/server/services/optimizer.service.ts:140-159 | the status updates keep every row, and every row's id, in place |
| Optimizer.MarkInReview | src/lib/server/services/optimizer.service.ts:140-159 | the first stop's report and then each remaining stop's report are marked in review |
| Optimizer.PlanRun | src/lib/server/services/optimizer.service.ts:89-138 | one planned run for the driver, stops 1..len in nearest-neighbour order all pending, then the run's distance from OSRM or the estimate |
| Optimizer.SetPlannedDistance | src/lib/server/services/optimizer.service.ts:128-138 | the new run gets the OSRM distance when there is one, otherwise the estimate |
| Optimizer.CreateRunForBatch | src/lib/server/services/optimizer.service.ts:86-159 | one run and one stop per report of the batch, and exactly the batch's reports flipped to in review |
| Optimizer.RunBatch | src/lib/server/services/optimizer.service.ts:85-162 | one new run equal to `BatchRun` of the batch for the assignee, planned at the routed or estimated distance; its stops are the nearest-neighbour stops of the batch, numbered on from the stop counter, all pending; exactly the batch's reports flipped |
| Optimizer.BatchRuns | src/lib/server/services/optimizer.service.ts:85-138 | run k of the batches is `BatchRun` of batch k for assignee k with run id first + k |
| Optimizer.BatchStopRows | src/lib/server/services/optimizer.service.ts:101-126 | the stops of batch k are the ordered stops of batch k on run first + k |
| Optimizer.CreateRuns | src/lib/server/services/optimizer.service.ts:85-163 | one run per non-empty bucket in bucket order: new run k is `BatchRun` of bucket k for assignee k, and its stops are the ordered stops of bucket k, with ids following those of the buckets before it; stop count = reports dealt; every dealt report flipped |
| Optimizer.DispatchReports | src/lib/server/services/optimizer.service.ts:47-169 | stops = filtered count, runs = min(drivers, filtered count), exactly the filtered reports flipped, nothing changed when none survive; the new runs and stops are, batch by batch, those of the round-robin deal of the score-sorted filtered reports |
| Optimizer.NothingDispatched | src/lib/server/services/optimizer.service.ts:47-169 | with no surviving report nothing is written and the empty deal is trivially planned |
| Optimizer.GenerateDailyRuns | src/lib/server/services/optimizer.service.ts:33-170 | the date defaults to today; the forecasts are refreshed for it first; then runs and stops are exactly those of the deal of the filtered reports sorted by the refreshed zone scores, with the counts and flips of the dispatch |
| Driver.OpenRunsOf | src/lib/server/services/driver.service.ts:16-27 | exactly the runs of the driver on the date that are not completed |
| Driver.GetAssignedRun | src/lib/server/services/driver.service.ts:15-38 | null exactly when the driver has no open run on the date; otherwise one of the table's runs that is an open run of the driver on the date |
| Driver.StopsOfRun | src/lib/server/services/driver.service.ts:31-35 | exactly the stops of the run |
| Driver.GetAssignedRunIsNewestOpenRun | src/lib/server/services/driver.service.ts:15-29 | null exactly when the driver has no open run that day; otherwise an open run of theirs created no earlier than any other |
| Driver.GetAssignedRunStops | src/lib/server/services/driver.service.ts:31-37 | the returned stops are exactly the run's stops, in ascending sequence |
| Driver.NormalizeNotes | src/lib/server/services/driver.service.ts:61 | missing or blank notes become null; otherwise the trimmed, non-empty notes |
| Driver.NormalizeNotesIdempotent | src/lib/server/services/driver.service.ts:61 | normalising notes twice is normalising once |
| Driver.CompletedAt | src/lib/server/services/driver.service.ts:62 | the completion time is set exactly when the status is done, and is then `now` |
| Driver.MayUpdate | src/lib/server/services/driver.service.ts:52-54 | a run with no driver may be updated by anyone; a run with a non-empty driver id only by that driver |
| Driver.NextRunState | src/lib/server/services/driver.service.ts:70-96 | completed exactly when no stop is pending or it was completed; in progress exactly when stops remain and it was planned or running; blocked stays blocked; nothing but status and times changes |
| Driver.NextRunStateNeverRegresses | src/lib/server/services/driver.service.ts:70-96 | a completed run stays completed, no run goes back to planned, and a running run never moves backwards |
| Driver.NextRunStateTimes | src/lib/server/services/driver.service.ts:70-96 | a planned run keeps its start time or starts now; with no pending stop it completes now |
| Driver.HasPendingStop | src/lib/server/services/driver.service.ts:81-85 | true exactly when some stop of the run is pending |
| Driver.SubmitStopUpdate | src/lib/server/services/driver.service.ts:40-110 | 400, 404 run, 403, 404 stop in that order with nothing written; otherwise only the matching stop updated, the run advanced, one stop_update event logged |
| Driver.ApplyStopUpdate | src/lib/server/services/driver.service.ts:56-109 | after the checks: 404 with nothing written, or the stop update, the run advance and exactly one event |
| Driver.AdvanceRun | src/lib/server/services/driver.service.ts:70-96 | the run becomes its next state given whether a pending stop remains |
| Driver.SubmitRoadConditionIssue | src/lib/server/services/driver.service.ts:112-146 | a blank description is refused with nothing written; an explicit null severity fails on the NOT NULL column with nothing written; otherwise one record with the trimmed description and the severity, medium when unset, and one road_condition_report event whose payload carries the severity given, or null |
| Authz.HasMinimumRole | src/lib/server/services/authz.service.ts:15-18 | false with no role; otherwise the rank comparison |
| Authz.HasMinimumRoleOrder | src/lib/server/services/authz.service.ts:9-13 | reflexive, admin satisfies every role, every role satisfies citizen, only admin satisfies admin, all but citizen satisfy driver |
| Authz.HasMinimumRoleTransitive | src/lib/server/services/authz.service.ts:9-17 | the role order is transitive |
| Authz.ResolveHomePath | src/lib/server/services/authz.service.ts:20-24 | admin to /admin/dashboard, driver to /driver/run, anything else to /citizen/report |
| Authz.ResolveHomePathDistinct | src/lib/server/services/authz.service.ts:20-24 | each role has its own home path, and no role means the citizen's |
| Authz.EnsuredRoleIdempotent | src/lib/server/services/authz.service.ts:36-47 | an existing role is returned without a write; else citizen is inserted; a second call writes nothing |
| Authz.RoleOfAppended | src/lib/server/services/authz.service.ts:40-46 | after inserting a user's first role row, that role is the user's role |
| Authz.EnsureUserRole | src/lib/server/services/authz.service.ts:36-47 | the role table and result are those of the ensured role |
| Authz.RequireUser | src/lib/server/services/authz.service.ts:49-52 | 401 exactly when no one is signed in; otherwise the user |
| Authz.RequireRole | src/lib/server/services/authz.service.ts:54-58 | 401 without a user, before the role check; 403 when the role is insufficient; otherwise the user |
| Authz.RequireRoleStrengthens | src/lib/server/services/authz.service.ts:54-58 | passing a stricter role check passes the sign-in check and every weaker role check |
| Authz.RequireSessionRedirect | src/lib/server/services/authz.service.ts:60-62 | a redirect to the path, by default /login, exactly when no one is signed in |
| Authz.RequireRoleRedirect | src/lib/server/services/authz.service.ts:64-67 | a redirect to /login without a session; to the path, by default /, when the role is insufficient |
| Authz.RedirectGuardAgrees | src/lib/server/services/authz.service.ts:49-67 | the redirecting guards let through exactly the requests the erroring guards let through |
| Storage.ReadRequired | src/lib/server/services/storage.service.ts:9-13 | a missing or empty variable fails with "NAME is not set"; otherwise its value |
| Storage.AsBoolean | src/lib/server/services/storage.service.ts:15-18 | false when missing or empty; otherwise true exactly for 1, true, yes, on, lowercased |
| Storage.AsBooleanIgnoresCase | src/lib/server/services/storage.service.ts:17 | a value and its lowercase read the same |
| Storage.NormalizeContentType | src/lib/server/services/storage.service.ts:36-39 | application/octet-stream when missing or empty; otherwise trimmed and lowercased |
| Storage.NormalizeContentTypeIdempotent | src/lib/server/services/storage.service.ts:36-39 | a non-empty normalised content type normalises to itself |
| Storage.OctetStreamIsNormal | src/lib/server/services/storage.service.ts:37 | the default content type is its own normal form |
| Storage.EnsureImageContentType | src/lib/server/services/storage.service.ts:41-43 | accepted exactly when it starts with image/; otherwise 400 "Only image uploads are supported." |
| Storage.MissingTypeIsRejected | src/lib/server/services/storage.service.ts:36-43 | a file without a type is refused as not an image |
| Storage.ExtensionFor | src/lib/server/services/storage.service.ts:46-55 | png, gif, webp and heic for exactly those image types, jpg for every other type |
| Storage.BuildObjectKey | src/lib/server/services/storage.service.ts:45-58 | the key lies under reports/user/ and ends with a dot and the extension for the content type |
| Storage.ObjectKeyParts | src/lib/server/services/storage.service.ts:45-58 | the key is reports/user/, then the time's digits, `-`, the uuid, and `.` plus the extension |
| Storage.BuildPublicUrl | src/lib/server/services/storage.service.ts:60-68 | the public base without trailing slashes plus /key; else endpoint/bucket/key, or the first missing variable's error |
| Storage.PublicUrlIgnoresTrailingSlash | src/lib/server/services/storage.service.ts:62 | a trailing slash on the public base does not change the URL |
| Storage.CheckPhotoSize | src/lib/server/services/storage.service.ts:71-72 | accepted exactly for 0 < size <= 10 MiB; 400 "A photo is required." or "Photo exceeds 10MB limit." otherwise |
| Storage.PhotoSizeBoundary | src/lib/server/services/storage.service.ts:7 | exactly 10 MiB is accepted, one byte more is refused, an empty file is refused |
| Storage.UploadReportPhoto | src/lib/server/services/storage.service.ts:70-93 | the size error, then the type error; on success a valid size, an image type, the key built from user, time and uuid, its public URL and a successful put |
| Storage.UploadSucceedsWhenValid | src/lib/server/services/storage.service.ts:70-93 | with storage configured and a valid image, a successful put gives a stored photo under the built key |
| Reporting.NormalizeCategory | src/lib/server/services/reporting.service.ts:41-44 | a listed category is kept as is; any other fails 400 "Invalid category" |
| Reporting.NormalizeCategoryRoundTrip | src/lib/server/services/reporting.service.ts:7 | every category's name normalises to that category |
| Reporting.ToReportWithPhoto | src/lib/server/services/reporting.service.ts:46-63 | the view carries the report's fields unchanged; photoUrl is the photo's public URL, or null without a photo |
| Reporting.PhotosOf | src/lib/server/services/reporting.service.ts:112 | exactly the photos of the report |
| Reporting.WithPhotos | src/lib/server/services/reporting.service.ts:112 | one joined row per photo of the report |
| Reporting.JoinReport | src/lib/server/services/reporting.service.ts:112 | a report's left-join rows are exactly its report with a matching photo, or with none when it has none |
| Reporting.LeftJoin | src/lib/server/services/reporting.service.ts:110-112 | the joined rows are exactly the table's reports paired as the left join pairs them |
| Reporting.Views | src/lib/server/services/reporting.service.ts:116 | one view per row, in row order |
| Reporting.ListingSpec | src/lib/server/services/reporting.service.ts:114-116 | every row's view is listed, every listed view is a row's, newest first |
| Reporting.ReportsOf | src/lib/server/services/reporting.service.ts:113 | exactly the user's reports |
| Reporting.OpenReports | src/lib/server/services/reporting.service.ts:127 | exactly the open and in-review reports |
| Reporting.ListReportsByUserSpec | src/lib/server/services/reporting.service.ts:105-117 | every joined row of the user's reports is listed, only the user's reports are listed, newest first |
| Reporting.ListReportsByUser | src/lib/server/services/reporting.service.ts:105-117 | every listed view is one of the user's reports |
| Reporting.ListOpenCitizenReportsSpec | src/lib/server/services/reporting.service.ts:119-131 | every joined row of an open or in-review report is listed, only such reports are listed, newest first |
| Reporting.ListOpenCitizenReports | src/lib/server/services/reporting.service.ts:119-131 | every listed view is an open or in-review report |
| Reporting.GetReportById | src/lib/server/services/reporting.service.ts:149-161 | null exactly when no report has the id; otherwise the view of a joined row of a report with that id |
| Reporting.GetReportByIdIsTheReport | src/lib/server/services/reporting.service.ts:149-161 | with unique ids, the lookup returns that very report, with a null photo URL exactly when it has no photo |
| Reporting.PhotoToAttach | src/lib/server/services/reporting.service.ts:84-91 | an uploaded photo with a key wins; else the file is uploaded; else 400 "A photo is required" |
| Reporting.NewReport | src/lib/server/services/reporting.service.ts:66-82 | an open report of the reporter, with the zone and category given and the trimmed description, which is empty exactly when the input is blank |
| Reporting.CreateCitizenReport | src/lib/server/services/reporting.service.ts:65-103 | blank description or bad category: 400, nothing written; else the open report is stored, then either the photo error with the report kept, or the photo row |
| Reporting.CreatedReportIsListed | src/lib/server/services/reporting.service.ts:102 | a created report with its photo appears in its reporter's list and in the open list, with the photo's URL |
| Reporting.StatusToSet | src/lib/server/services/reporting.service.ts:133-134 | the status defaults to resolved; a name outside the four statuses fails 400 "Invalid status" |
| Reporting.ReportsWithStatusFacts | src/lib/server/services/reporting.service.ts:136-143 | an update of a missing id changes nothing, and repeating the update changes nothing more |
| Reporting.ResolveCitizenReport | src/lib/server/services/reporting.service.ts:133-147 | 400 for a bad status with nothing written; 404 exactly when no report has the id; otherwise only that report's status changes |
| Reporting.ClosedReportLeavesOpenList | src/lib/server/services/reporting.service.ts:127 | a report resolved or rejected no longer appears in the open list |
| CitizenReportsApi.ToNumber | src/lib/api/citizen-reports.remote.ts:12-20 | 400 "field is required" for undefined, null or ""; 400 "field must be a number" unless finite; otherwise the number |
| CitizenReportsApi.ToNumberOnNumbers | src/lib/api/citizen-reports.remote.ts:12-20 | a finite number passes; null, NaN and the infinities are refused |
| CitizenReportsApi.ZoneIdOf | src/lib/api/citizen-reports.remote.ts:49-52 | a zone id is kept exactly when it has no fraction, and then equals the number |
| CitizenReportsApi.UploadedPhotoOf | src/lib/api/citizen-reports.remote.ts:54-63 | passed exactly when both object key and public URL are non-empty strings |
| CitizenReportsApi.CreateReportInputOf | src/lib/api/citizen-reports.remote.ts:40-64 | 401, then latitude, then longitude, then zone-id errors, and success exactly when none occurs; category defaults to uncollected, description to ""; an empty zone id is null, any other is the whole-number zone id or null |
| CitizenReportsApi.FormPhotoChoice | src/lib/api/citizen-reports.remote.ts:53-63 | a form's uploaded photo is the one attached; with neither photo the call fails "A photo is required" |
| CitizenReportsApi.CreateReport | src/lib/api/citizen-reports.remote.ts:28-71 | form errors write nothing; success stores one open report of the caller's with one photo |
| CitizenReportsApi.ListMyReports | src/lib/api/citizen-reports.remote.ts:73-77 | 401 exactly when signed out; otherwise the caller's listing |
| CitizenReportsApi.ListMyReportsOwnOnly | src/lib/api/citizen-reports.remote.ts:73-77 | a signed-in user sees only their own reports, and all of them |
| CitizenReportsApi.CheckReportAccess | src/lib/api/citizen-reports.remote.ts:92-131 | 401, then 404, then 403 unless reporter or admin, then 400 for a non-admin editing a report neither open nor rejected |
| CitizenReportsApi.ReportDetail | src/lib/api/citizen-reports.remote.ts:79-90 | 401, 404 when missing, 403 unless reporter or admin; otherwise exactly the report under the id |
| CitizenReportsApi.AccessLevels | src/lib/api/citizen-reports.remote.ts:92-131 | update and delete are allowed on the same requests, each only where viewing is, and an admin may change any report |
| CitizenReportsApi.BadReportIdNotFound | src/lib/api/citizen-reports.remote.ts:97-100 | an id that is not a positive integer is "Report not found" |
| CitizenReportsApi.OwnerMayEditWhileEditable | src/lib/api/citizen-reports.remote.ts:101-106 | a non-admin reporter may edit their report exactly while it is open or rejected |
| DriverOpsApi.ToOptionalNumber | src/lib/api/driver-ops.remote.ts:11-15 | undefined, null, "" and NaN give undefined; otherwise the parsed number |
| DriverOpsApi.ToOptionalNumberOnNumbers | src/lib/api/driver-ops.remote.ts:11-15 | null is missing rather than 0; a number passes through unless it is NaN |
| DriverOpsApi.NormalizeSeverity | src/lib/api/driver-ops.remote.ts:56-58 | undefined stays unset and null stays null; low, medium, high pass through; any other value, a number included, becomes medium |
| DriverOpsApi.NormalizeSeverityStored | src/lib/api/driver-ops.remote.ts:56-58 | the stored severity is the named one when valid, else medium; a normalised severity normalises to itself |
| DriverOpsApi.OptionalId | src/lib/api/driver-ops.remote.ts:62-63 | an id is stored only for a finite whole number, and then equals it |
| DriverOpsApi.OptionalCoordinate | src/lib/api/driver-ops.remote.ts:66-67 | a coordinate is stored exactly for a finite number, and then equals it |
| DriverOpsApi.GetCurrentRun | src/lib/api/driver-ops.remote.ts:17-21 | 401 exactly when signed out; otherwise the caller's assigned run for today |
| DriverOpsApi.CurrentRunIsOwn | src/lib/api/driver-ops.remote.ts:17-21 | the current run is the caller's, for today, with only its own stops |
| DriverOpsApi.SubmitStop | src/lib/api/driver-ops.remote.ts:23-42 | 401 with nothing written; a run id that is not a positive integer finds no run; success updates the stop under the converted ids, logged for the caller |
| DriverOpsApi.SubmitRoadIssue | src/lib/api/driver-ops.remote.ts:44-70 | 401 with nothing written; a null severity fails with nothing written; success stores the caller's record with the converted numbers and the severity, medium when missing, and logs one event carrying the given severity or null |

## Left out

- The haversine formula (`src/lib/server/services/geo.service.ts:15-23`) uses floating-point trigonometry. Distance is a function parameter. Only `Optimizer.PathLengthReversed` assumes anything of it: zero on identical points, symmetric, non-negative.
- `getOsrmTripDistanceKm` (`src/lib/server/services/geo.service.ts:51-70`) does a network fetch. It is a parameter returning an optional distance; the `??` fallback to the estimate is modelled.
- Optimizer.EstimateDistance: returns the exact sum, without the rounding to two decimals that `Number(total.toFixed(2))` applies, because that is floating-point formatting.
- `Math.round` in the volume formula is the identity on the integer values the model uses. Confidence is kept in hundredths and the score in fiftieths, so no float is needed.
- Text.Lower: lowercases ASCII letters only, while `toLowerCase` also maps other Unicode letters. Every value compared after lowercasing is ASCII.
- JavaScript `Number` on strings (decimal, hexadecimal, exponents, whitespace) is a parameter `string -> JsNumber`. Its values on `undefined`, `null` and numbers are modelled.
- `Date.now()`, `randomUUID()` and the default date of `toYmdDate` are parameters. One `now` serves a whole call, so the several `Date.now()` calls inside `generateDailyRuns` and `submitStopUpdate` share one value.
- The S3 client, the put, the presigned upload (`createPresignedUploadUrl`) and `confirmUploadedObject` are foreign calls. The put's outcome is a parameter of `Storage.UploadReportPhoto`; the presign and confirm paths are not modelled. `S3_REGION` and `S3_FORCE_PATH_STYLE` only configure the client; `Storage.AsBoolean` is modelled by itself.
- Storage.UploadReportPhoto: its ensures covers the size error, the type error and success. The order in which the missing storage variables are reported stays in its body.
- `readSingleFile` (`src/lib/api/citizen-reports.remote.ts:22-26`) tests the runtime type of a form field. The form carries an already-read optional file instead.
- `updateCitizenReport` and `deleteCitizenReport` are imported by `citizen-reports.remote.ts` but defined outside `reporting.service.ts`, so they are not part of this model. Only the guards in front of them are modelled, by `CitizenReportsApi.CheckReportAccess`.
- Reporting.LeftJoin: states which joined rows occur, not how many times each occurs or in what order. The listings' order is stated separately as newest first.
- CitizenReportsApi.CreateReport: on success it states the stored report and one new photo row. The photo-path errors are stated on `Reporting.CreateCitizenReport`, which it calls.
- DriverOpsApi.SubmitStop: states the 401, the 404 for a run id that is not a positive integer, and the success facts. The full outcome is that of `Driver.SubmitStopUpdate`, which it calls.
- Optimizer.GenerateDailyRuns: the routing answer is a function of the stop coordinates alone, so the same batch always gets the same planned distance. The network's variability is not modelled.
- A zone id, run id or coordinate that is fractional or infinite reaches an integer or real column as no value. The database would do something else with such values.
- SQL row order is the table's insertion order. `ORDER BY` and `Array.prototype.sort` are the same stable insertion sort.
- Concurrency and transactions are not modelled. Each call runs its statements one after another with nothing interleaved. No service opens a transaction, so a call that fails part-way keeps the writes made before the failure.
- The dashboard service, the database connection, configuration, login and logout routes, redirect-only layouts and the admin, dashboard and upload remote files are not part of this model.
- Foreign-key cascades and the timestamp defaults of the schema are not modelled, beyond the reference facts in `Db.Store.Valid()`.
