# Preprocessor verification

This project models the decision-making core of the RIoT preprocessors for public transport (MHD), Waze traffic jams and
NDIC road traffic, together with the KPI tree codec and the batch publisher they share, and proves what that core keeps,
over all inputs and over all runs.

| file | component |
|---|---|
| `GoTime.dfy`, `Text.dfy`, `StableSort.dfy`, `Iteration.dfy`, `Wrappers.dfy` | clock arithmetic with Go's durations, string order and decimal text, stable sorting, map iteration orders |
| `ServiceCalendar.dfy`, `Timetable.dfy`, `GtfsStore.dfy`, `Schedule.dfy` | the GTFS calendar, the timetable and the index over shared trip definitions, and what the built timetable says about the feed |
| `Matching.dfy`, `Segment.dfy` | matching a live record to an occurrence and locating it on the polyline of its stops |
| `MhdRuntime.dfy`, `MhdRuns.dfy`, `MhdMessages.dfy`, `MhdAgreement.dfy` | the tracker that two threads share, as a protocol of locked sections and publishing steps |
| `RawJams.dfy`, `WazeAggregation.dfy`, `WazeClosedForms.dfy`, `WazeFeed.dfy`, `WazeLifecycle.dfy`, `WazeConservation.dfy`, `WazeReports.dfy`, `WazeRuns.dfy` | merging jams per segment, what the aggregates say about the jams, and the life cycle of segments from feed to feed |
| `NdicParser.dfy`, `NdicRuntime.dfy`, `NdicRuns.dfy`, `NdicReports.dfy` | folding NDIC elements into snapshots, the flag-based tracker, and what its messages say about the documents |
| `Presence.dfy`, `TrackerSimulation.dfy` | blocks of presence, and the simulation between the runs of NDIC's flag map and of Waze's swapped map |
| `KpiCodec.dfy`, `KpiFields.dfy`, `KpiDefinitions.dfy`, `Batches.dfy` | the KPI codec over JSON values, and batch publishing |

Time is an integer number of nanoseconds since 1 January of year 1, so Go's zero time is 0. Clock readings, random draws and
hash values are parameters, constrained only by what the code guarantees about them. The order in which Go iterates over a
map is arbitrary: loops over maps pick any remaining key, and contracts never mention the choice except through a ghost
enumeration. Floating-point values are reals.

## Where the code and its intention part

Each of these is stated as an exact condition.

- At any point of a run, every way of draining the two threads of the MHD tracker leaves the last message about an instance
  in agreement with its state if and only if each queue that mentions the instance ends in agreement, or none mentions it and
  what was published so far agrees (`MhdAgreement.DrainsWellIfSettled`). At all points of the run it does so if and only if no
  section ever decided about the instance while the other thread still had a message about it
  (`MhdAgreement.AgreementNeedsNoOverlap`). `MhdAgreement.LateRecordEndsActive` is a short run, under every
  configuration, in which a closed instance is last reported active.
- A departure observed so far in the future that the difference saturates gets the full drift bonus, because the negation
  overflows (`Matching.DriftBonusIsByDistance`, `Matching.ScoreIsReducedDistance`).
- Two different negative publication times sort in reverse (`RawJams.SortKeyOrder`), so the sorted raw jams are in order of
  publication if and only if all negative times among them are equal (`RawJams.SortedByPublicationExactly`).
- The merged speed depends on the order of arrival if and only if a negative speed meets a different known speed
  (`WazeClosedForms.MergedSpeedOrderIndependence`); the merged event time if and only if the latest publications disagree on theirs
  (`WazeClosedForms.EventTimeOrderIndependence`).
- `jamCount` counts segment references. It is the number of jams that list the segment if and only if no jam lists it more
  than once (`WazeConservation.JamCountIsTheNumberOfJams`); `WazeConservation.RepeatedSegmentCountsTwice` is a feed of one jam
  with a count of 2.
- A KPI tree survives its codec unchanged if and only if it holds no nil element and no slice that is allocated but empty. A
  nil element makes the decoder panic on the encoder's output, an empty slice comes back as nil
  (`KpiCodec.RoundTripIsExact`). The codec decodes no `KPIDefinition`: only the MPU variant has a decoder.
- A definition without a line or a route is never matched, not even by a record that lacks them too
  (`GtfsStore.Store.DefinitionsFor`).

## Model

| member | source | states |
|---|---|---|
| GoTime.DistanceIsExact | backend/mhd-preprocessor/src/matching.go:31-34 | the negated saturating difference of two instants is their distance exactly while the difference fits a duration |
| GoTime.WeekBoundsAreTheWeek | backend/mhd-preprocessor/src/helpers.go:197-205 | the bounds are the one Monday-to-Monday span of seven days that contains now |
| GoTime.WeekdayAfter | backend/mhd-preprocessor/src/helpers.go:245-264 | counting days from a Monday midnight counts weekdays in the order Monday to Sunday |
| GoTime.JitterIsBounded | backend/mhd-preprocessor/src/helpers.go:221-227 | the jittered time takes exactly the values within the maximum on either side of the base, and the base itself without jitter |
| GoTime.AtoiRoundTrip | backend/mhd-preprocessor/src/helpers.go:317-332 | a printed number is read back exactly if it fits 64 bits |
| GoTime.ClockRoundTrip | backend/mhd-preprocessor/src/helpers.go:317-332 | a written clock is read back as that many hours, minutes and seconds after local midnight, past midnight too |
| GoTime.AtoiReads | backend/mhd-preprocessor/src/helpers.go:322-327 | for every string: it is read as a number exactly if it writes that number, with any leading zeros and a sign or none, and the number fits 64 bits |
| GoTime.ClockIsRead | backend/mhd-preprocessor/src/helpers.go:317-332 | for every string: it is read as exactly the instant that it names as three numbers between colons, spaces around aside, or not at all |
| Text.TrimSpaceStrips | backend/mhd-preprocessor/src/helpers.go:318 | trimming removes only spaces, only at the two ends, and leaves none there |
| ServiceCalendar.ActiveOn | backend/mhd-preprocessor/src/gtfs_store.go:488-500 | a day counts as active exactly if its last exception adds it, or it has none and the row covers it |
| ServiceCalendar.ActiveServiceDates | backend/mhd-preprocessor/src/gtfs_store.go:483-505 | the loop over the days gives the list that the next two rows characterize |
| ServiceCalendar.ServiceDatesAreTheRunningDays | backend/mhd-preprocessor/src/gtfs_store.go:483-505 | calendar_dates.txt overrides calendar.txt: strictly increasing, and exactly the running days between the bounds |
| ServiceCalendar.WeekHasAtMostSevenDates | backend/mhd-preprocessor/src/gtfs_store.go:483-505 | within the bounds of a week there are at most seven dates |
| ServiceCalendar.DistinctWeekdays | backend/mhd-preprocessor/src/gtfs_store.go:507-521 | every weekday of the dates, once, and no other |
| ServiceCalendar.SortedCodesAreCanonical | backend/mhd-preprocessor/src/helpers.go:287-291 | sorting distinct day codes gives the one list of them in week order |
| ServiceCalendar.WeekdaysToCodes | backend/mhd-preprocessor/src/helpers.go:293-315 | distinct weekdays become the canonical list of their codes |
| ServiceCalendar.MergeServiceDays | backend/mhd-preprocessor/src/gtfs_store.go:540-561 | the merge keeps every code of either list once, in week order |
| ServiceCalendar.MergedDaysIsTheUnion | backend/mhd-preprocessor/src/gtfs_store.go:540-561 | merging two lists gives the canonical list of the union of their codes, whatever their order and repetitions |
| ServiceCalendar.MergeIsCommutativeAssociativeIdempotent | backend/mhd-preprocessor/src/gtfs_store.go:540-561 | any merge tree over a UID's trips gives one canonical list |
| Timetable.ParseApiMap | backend/mhd-preprocessor/src/gtfs_store.go:467-481 | each trip gets the numbers of its last readable line, unreadable lines are skipped, and both components are non-empty digits |
| GtfsStore.AppendOccurrences | backend/mhd-preprocessor/src/gtfs_store.go:211-225 | the shared definition grows by one occurrence for each date whose two clocks can be read, in order |
| GtfsStore.AddDefinition | backend/mhd-preprocessor/src/gtfs_store.go:202-206 | a new definition enters the map and, if routed, its own bucket once, and the index invariant is kept |
| GtfsStore.BeginKnown | backend/mhd-preprocessor/src/gtfs_store.go:207-209 | a trip whose UID is known merges its days into the shared object in place |
| GtfsStore.AddTrip | backend/mhd-preprocessor/src/gtfs_store.go:138-226 | visiting one more trip, in any order, keeps the index invariant and the exact contents of every definition |
| GtfsStore.SortBuckets | backend/mhd-preprocessor/src/gtfs_store.go:228-232 | every bucket is sorted by departure and keeps its objects |
| GtfsStore.BuildDefinitions | backend/mhd-preprocessor/src/gtfs_store.go:108-239 | every routed definition is indexed once, under its own key, as the object stored under its UID, and nothing else is; contents depend on the feed alone, buckets and occurrences are sorted |
| GtfsStore.BuildsAgree | backend/mhd-preprocessor/src/gtfs_store.go:138-226 | two builds with different visiting orders agree on UIDs, on the multiset of occurrences of each and on its service days |
| GtfsStore.OccurrencesAreConserved | backend/mhd-preprocessor/src/gtfs_store.go:138-226 | every readable occurrence of every included trip is in exactly one definition, once, and nothing else is anywhere |
| Schedule.OccurrencesAreScheduled | backend/mhd-preprocessor/src/gtfs_store.go:138-226 | an occurrence is in the built timetable exactly if its trip has two stops or more and runs on its date in that week, the service is the trip's, the first departure clock names its start on that date and the last arrival clock its end |
| Schedule.ScheduledAfterMidnight | backend/mhd-preprocessor/src/gtfs_store.go:211-225 | start and end are that many hours, minutes and seconds after the midnight of the service date as the first departure and the last arrival say |
| Schedule.ServiceDaysAreTheWeekdays | backend/mhd-preprocessor/src/gtfs_store.go:177-209 | in a Monday-to-Monday week a definition lists exactly the weekdays on which a trip of its UID runs, Monday first, each once |
| Schedule.SharedUID | backend/mhd-preprocessor/src/gtfs_store.go:536-538 | trips with one route, first departure, list of stops and direction share a UID, and where the hash does not collide and no part holds a separator no others do |
| GtfsStore.KeyIsUnambiguous | backend/mhd-preprocessor/src/gtfs_store.go:532-534 | the key of a numeric line and route equals that of any query strings exactly if both components are equal, slashes included |
| GtfsStore.ReflectedRoutesAreDigits | backend/mhd-preprocessor/src/gtfs_store.go:467-481 | every routed definition has a numeric line and route |
| GtfsStore.Store.constructor | backend/mhd-preprocessor/src/gtfs_store.go:39-46 | an empty store is valid |
| GtfsStore.Store.Refresh | backend/mhd-preprocessor/src/gtfs_store.go:48-84 | a refresh replaces map and index together by those of the current week, a failed one changes nothing |
| GtfsStore.Store.DefinitionsFor | backend/mhd-preprocessor/src/gtfs_store.go:241-245 | exactly the routed definitions with that line and route, each once, sorted by departure |
| Matching.DriftBonusIsByDistance | backend/mhd-preprocessor/src/matching.go:62-75 | the drift bonus follows the distance exactly unless the difference saturates, and then it is 60 minutes |
| Matching.MatchingBonus | backend/mhd-preprocessor/src/matching.go:53-92 | the accumulating branches give the bonus that the next row characterizes |
| Matching.BonusIsEarned | backend/mhd-preprocessor/src/matching.go:53-92 | the bonus adds up what the record earns: 30 minutes for the same local day, 45 for the service, three steps of 20 for a drift of at most 10, 5 and 2 minutes, 20 for the final stop, 10 and 5 for the last stop, 25 for the same vehicle; unless the drift cannot be subtracted |
| Matching.ScoreIsReducedDistance | backend/mhd-preprocessor/src/matching.go:31-40 | the score is the distance less the bonus, not below zero, exactly while the difference fits; the bonus is at most 195 minutes |
| Matching.SearchCandidates | backend/mhd-preprocessor/src/matching.go:22-49 | the nested loops find the leftmost of the best occurrences inside the window |
| Matching.MatchLiveRecord | backend/mhd-preprocessor/src/matching.go:17-51 | a match is found exactly if some definition with the record's line and route, both non-empty, has an occurrence from at most the window before whose start to at most the window behind whose end the record is stamped; the match is one of least score among these, leftmost in index order on ties |
| Matching.NearAnInstant | backend/mhd-preprocessor/src/matching.go:26-29 | around an interval that is not reversed the window is the instants at most that far from one within it |
| Segment.NormalizeIsIdempotent | backend/mhd-preprocessor/src/segment.go:64-76 | an identity is a number if the value holds a digit and the trimmed value otherwise, and normalizing again changes nothing |
| Segment.FirstDigitsIsTheFirstRun | backend/mhd-preprocessor/src/segment.go:64-76 | the number is the first run of digits in the value |
| Segment.DistanceIsTheLeast | backend/mhd-preprocessor/src/segment.go:121-165 | the distance is attained at the progress, which is between 0 and 1, and is the least over the whole segment |
| Segment.NearestStopSegmentIndex | backend/mhd-preprocessor/src/segment.go:93-119 | the leftmost nearest valid segment, or none |
| Segment.SegmentIndexFromLastStop | backend/mhd-preprocessor/src/segment.go:44-62 | the last segment that starts at a stop with the identity of the reported one, or none |
| Segment.NearestSegmentHasNearestPoint | backend/mhd-preprocessor/src/segment.go:78-119 | the point of the nearest segment's match is nearest over every point of every valid segment |
| Segment.BuildSegmentMatch | backend/mhd-preprocessor/src/segment.go:28-42 | the last segment from the reported stop decides if there is one, otherwise the match is a nearest point of the polyline; either way it runs from its stop to the following one, with the progress nearest to the vehicle, or 0 without positions |
| Segment.SegmentProgressIsProgress | backend/mhd-preprocessor/src/segment.go:121-141 | the progress is where the segment comes nearest to the vehicle, and 0 if a position is missing or the stops lie at one place |
| MhdRuntime.Tracker.constructor | backend/mhd-preprocessor/src/runtime.go:24-30 | the tracker starts with no instance and nothing to publish |
| MhdRuntime.Tracker.ProcessMatchedRecord | backend/mhd-preprocessor/src/runtime.go:69-115 | the locked section and the messages it leads to are one step of the protocol |
| MhdRuntime.Tracker.CloseExpiredInstances | backend/mhd-preprocessor/src/runtime.go:117-150 | the closing section is one step of the protocol, for every order of iteration |
| MhdRuntime.Tracker.PublishNext | backend/mhd-preprocessor/src/runtime.go:94-149 | a thread attempts its oldest pending message, and nothing else changes |
| MhdRuns.MessagesCountTransitions | backend/mhd-preprocessor/src/runtime.go:75-149 | for every interleaving: deactivations attempted or pending are the ends of activity, activations less deactivations is 1 exactly while active, active messages are active records, and there is at most one synthetic start, exactly if the first record is late |
| MhdMessages.RecordIsReported | backend/mhd-preprocessor/src/runtime.go:94-115 | a record leaves a synthetic start, if it is the first and late, with its tags within the jitter of the service start, and behind it its own state, dated by the record, with its tags; an inactive one only if it ends activity |
| MhdMessages.RecordsAreReported | backend/mhd-preprocessor/src/runtime.go:69-115 | for every interleaving: synthetic starts aside, what the WebSocket thread has attempted and still has pending about an instance are the reports of its records, each once, in order, with their times and tags |
| MhdMessages.ActiveMessagesAreTheRecords | backend/mhd-preprocessor/src/runtime.go:69-150 | for every interleaving: the active messages about an instance, attempted or pending, are its active records, in order, with their times and tags |
| MhdRuns.StatesAreTheLastRecords | backend/mhd-preprocessor/src/runtime.go:75-96 | an instance holds its last record and is active exactly if that record was and no tick has reached its closing time |
| MhdRuns.TickCloses | backend/mhd-preprocessor/src/runtime.go:117-150 | a tick closes exactly the instances that are due, with the tags of their last record and a time within the jitter of the closing time |
| MhdRuns.ThreadsKeepTheirOrder | backend/mhd-preprocessor/src/runtime.go:94-149 | each thread attempts exactly what it decided, in that order |
| MhdAgreement.WithoutOverlapSettled | backend/mhd-preprocessor/src/runtime.go:75-149 | without overlapping decisions every publishing order ends in agreement with the state |
| MhdAgreement.DrainsWellIfSettled | backend/mhd-preprocessor/src/runtime.go:75-149 | at any point of a run, every drain ends in agreement if and only if each queue that mentions the instance does, or none does and the attempts so far agree |
| MhdAgreement.OverlapCanDisagree | backend/mhd-preprocessor/src/runtime.go:75-149 | after an overlapping decision the queues can be drained so that the last message contradicts the state |
| MhdAgreement.AgreementNeedsNoOverlap | backend/mhd-preprocessor/src/runtime.go:75-149 | every drain at every point of a run ends in agreement if and only if no decisions overlap |
| MhdAgreement.LateRecordEndsActive | backend/mhd-preprocessor/src/runtime.go:75-149 | for every configuration and every late active record, a run that ends with the closed instance last reported active |
| StableSort.StableSortIsUnique | backend/wazejam-preprocessor/src/parsing.go:258-262 | whatever meets the contract of a stable sort is the modelled sort |
| StableSort.SortAfterSort | backend/wazejam-preprocessor/src/aggregation.go:91 | sorting what is already sorted together with new elements is sorting everything once |
| StableSort.SortedKeysPermuted | backend/wazejam-preprocessor/src/parsing.go:258-262 | permuted lists sort to the same sequence of keys |
| RawJams.SortKeyOrder | backend/wazejam-preprocessor/src/parsing.go:264-269 | for all 64-bit publication times the order of the padded keys is numeric order and then that of the remainders, except that two negative times compare in reverse |
| RawJams.KeyRemainderOrder | backend/wazejam-preprocessor/src/parsing.go:264-269 | among UUIDs of one length, equal times are ordered by the UUIDs and then by the blocking alerts, spaces aside |
| RawJams.SortedByPublicationExactly | backend/wazejam-preprocessor/src/parsing.go:258-269 | sorted raw jams are in order of publication if and only if all negative times among them are equal |
| RawJams.SortedByPublication | backend/wazejam-preprocessor/src/parsing.go:258-269 | raw jams with non-negative publication times end up in order of publication |
| WazeAggregation.ParseSegments | backend/wazejam-preprocessor/src/parsing.go:106-149 | the loop and the sort give the list that the next row characterizes |
| WazeAggregation.ParsedSegments | backend/wazejam-preprocessor/src/parsing.go:106-149 | the well-formed entries, each as often as it is listed, ordered by ID, direction and nodes |
| WazeReports.SegmentsAreListed | backend/wazejam-preprocessor/src/parsing.go:106-149 | exactly the well-formed entries, each as often as it is listed, by ID, reverse before forward, then by nodes |
| WazeAggregation.InstanceUIDIsInjective | backend/wazejam-preprocessor/src/parsing.go:56-62 | UIDs are equal exactly if segment and direction are |
| WazeReports.UIDReadsBack | backend/wazejam-preprocessor/src/parsing.go:56-62 | the segment number and the direction can be read off the text of the UID |
| WazeAggregation.DeviceAggregate.MergeAggregate | backend/wazejam-preprocessor/src/aggregation.go:69-92 | merging changes the target in place to the merge of the two values |
| WazeAggregation.BuildAggregatesFromJam | backend/wazejam-preprocessor/src/aggregation.go:21-67 | one new object for each parsed segment, none shared, each holding what the jam says about it |
| WazeClosedForms.DelayOrder | backend/wazejam-preprocessor/src/aggregation.go:170-178 | the order of delays is total with -1 above everything |
| WazeClosedForms.DelayClosedForm | backend/wazejam-preprocessor/src/aggregation.go:73-75 | the merged delay is a delay that arrived: -1 if any is, otherwise the greatest |
| WazeClosedForms.SpeedClosedForm | backend/wazejam-preprocessor/src/aggregation.go:80-85 | for all speeds: 0 if none is known, the first known one if it is negative, otherwise the least positive |
| WazeClosedForms.SpeedOrderIndependence | backend/wazejam-preprocessor/src/aggregation.go:80-85 | the merged speed is the same for every order if and only if a negative speed meets no other known speed |
| WazeClosedForms.MergedSpeedOrderIndependence | backend/wazejam-preprocessor/src/aggregation.go:69-92 | the merge of the arrivals has the same speed, and the same speed in km/h, for every order of arrival if and only if in that unit a negative speed meets no other known speed |
| WazeClosedForms.NonNegativeSpeeds | backend/wazejam-preprocessor/src/aggregation.go:80-85 | merged speeds that are not negative are the least positive one, or 0 if none is positive |
| WazeClosedForms.EventTimeClosedForm | backend/wazejam-preprocessor/src/aggregation.go:86-89 | event time and publication are those of the first arrival with the latest publication |
| WazeClosedForms.EventTimeOrderIndependence | backend/wazejam-preprocessor/src/aggregation.go:86-89 | the merged event time is the same for every order if and only if the latest publications agree on theirs |
| WazeClosedForms.EventTimeOfPublished | backend/wazejam-preprocessor/src/parsing.go:164-172 | for jams with publication times the event time is the latest of them |
| WazeClosedForms.RawJamsClosedForm | backend/wazejam-preprocessor/src/aggregation.go:69-92 | re-sorting after every merge leaves one stable sort of the whole arrival sequence, a permutation of it |
| WazeClosedForms.FieldsFoldSeparately | backend/wazejam-preprocessor/src/aggregation.go:69-92 | each measure of the merge depends on that measure of the arrivals alone |
| WazeClosedForms.FoldSummarizesSegment | backend/wazejam-preprocessor/src/aggregation.go:69-92 | the merge of a segment's arrivals in closed form: top delay, greatest level, total length, merged speeds, number of jams, sorted raw jams of that number, times of the first latest arrival |
| WazeClosedForms.MergeOrderIndependence | backend/wazejam-preprocessor/src/aggregation.go:69-92 | every order of arrival gives the same delay, length, level, count, latest publication, raw jams and sequence of sort keys, and the same speeds while negative ones are alone |
| WazeFeed.CollectFeed | backend/wazejam-preprocessor/src/lifecycle.go:100-115 | the heap objects collected from a feed are, for each UID, the merge of that UID's arrivals in order |
| WazeLifecycle.StartupZeroDelayEventTime | backend/wazejam-preprocessor/src/aggregation.go:121-132 | a startup zero is dated 1 to 500 ms before its event, whatever the hash |
| WazeLifecycle.EntryIsSorted | backend/wazejam-preprocessor/src/aggregation.go:94-111 | the sort before publishing changes nothing |
| WazeLifecycle.WazeTracker.constructor | backend/wazejam-preprocessor/src/lifecycle.go:177-183 | no segment is active at the start |
| WazeLifecycle.WazeTracker.FetchAndProcessWazeData | backend/wazejam-preprocessor/src/lifecycle.go:80-162 | a fetch announces the aggregates in some order and closes the vanished segments in some order, with their last tags, and swaps the active set; a failed one does nothing |
| WazeConservation.OneAggregatePerDirectedSegment | backend/wazejam-preprocessor/src/lifecycle.go:105-115 | there is exactly one aggregate for each pair of segment ID and direction in the feed |
| WazeConservation.JamCountsAreConserved | backend/wazejam-preprocessor/src/lifecycle.go:105-115 | jam counts add up to the well-formed segment references of all jams |
| WazeConservation.JamCountIsTheNumberOfJams | backend/wazejam-preprocessor/src/aggregation.go:69-92 | each aggregate's jam count is the number of references to its segment and direction, and the number of jams that list them if and only if no jam lists them more than once |
| WazeConservation.RepeatedSegmentCountsTwice | backend/wazejam-preprocessor/src/parsing.go:106-149 | one jam that lists one segment twice is counted as two |
| WazeConservation.PublishedAggregates | backend/wazejam-preprocessor/src/lifecycle.go:105-132 | every published aggregate summarizes the arrivals of its segment and direction, with the least positive speeds or 0 where none is negative |
| WazeConservation.PublishedFeedTimes | backend/wazejam-preprocessor/src/parsing.go:164-172 | when all jams carry publication times, a segment's event time is the latest publication among its jams |
| WazeReports.AggregatesSummarizeJams | backend/wazejam-preprocessor/src/aggregation.go:21-92 | for every feed: a UID has an aggregate exactly if some jam lists it, and over those jams, once for every listing in feed order, it has the top delay, the greatest level, the sum of the lengths, either speed merged from that speed, their number, their raw jams sorted, and the times of the first with the latest publication |
| WazeReports.TagsAreTheFirstJams | backend/wazejam-preprocessor/src/aggregation.go:35-48 | the tags are the road of the first jam that lists the segment and the listing with the least nodes, each field in its place, node 0 as unknown |
| WazeRuns.ActiveSummarizesItsJams | backend/wazejam-preprocessor/src/lifecycle.go:117-132 | every active message of a run summarizes the jams of its feed that list its segment, with the tags of the first of them |
| WazeConservation.OneMessageOfEachKind | backend/wazejam-preprocessor/src/lifecycle.go:117-147 | one active message for each current segment, one startup zero exactly for those newly active since the start, one closing exactly for those that vanished |
| WazeConservation.StartupZerosPrecedeTheirActives | backend/wazejam-preprocessor/src/lifecycle.go:127-131 | each startup zero stands directly before its active message, with its tags, 1 to 500 ms earlier |
| NdicParser.NdicSnapshot.Take | backend/ndic-preprocessor/src/parser.go:70-97 | one element changes the snapshot in place to its successor |
| NdicParser.ParseNDICXML | backend/ndic-preprocessor/src/parser.go:25-101 | each source gets the fold of its own elements and of nothing else; one element that does not decode fails the message |
| NdicParser.SourcesDoNotInterfere | backend/ndic-preprocessor/src/parser.go:64-97 | neither other sources' elements nor the interleaving changes a source's snapshot |
| NdicParser.SnapshotSummarizes | backend/ndic-preprocessor/src/parser.go:64-97 | latest non-zero time, first non-empty location codes, last present measure of each type, raw entries in document order |
| NdicReports.SnapshotReportsDocument | backend/ndic-preprocessor/src/parser.go:60-97 | against the document itself: the latest time, the first codes, every entry in order, the level of the last TrafficStatus, the speed of the last TrafficSpeed and the duration of the last TravelTimeData element of the source that has one |
| NdicParser.TrafficLevelIsRead | backend/ndic-preprocessor/src/parser.go:314-322 | a level is the number behind the word if it fits, and 0 for a value that does not start with the word |
| NdicParser.TrafficLevelOfText | backend/ndic-preprocessor/src/parser.go:314-322 | for every text behind the word: any writing of a number that fits is that level, anything else is 0 |
| NdicRuntime.SourceOfInstance | backend/ndic-preprocessor/src/runtime.go:158-160 | the source can be read off the instance UID, so sources never share an instance |
| NdicRuntime.Runtime.constructor | backend/ndic-preprocessor/src/runtime.go:24-30 | the tracker starts with no instance |
| NdicRuntime.Runtime.VisitSnapshot | backend/ndic-preprocessor/src/runtime.go:74-113 | one snapshot sets its instance's state and gives its messages |
| NdicRuntime.Runtime.CloseMissingInstances | backend/ndic-preprocessor/src/runtime.go:125-156 | exactly the active instances that are not current are closed, each with its own tags |
| NdicRuntime.Runtime.ProcessFetchResult | backend/ndic-preprocessor/src/runtime.go:69-123 | a fetch is one step on the instance map with snapshots and closings in some order |
| NdicRuns.AfterStep | backend/ndic-preprocessor/src/runtime.go:69-156 | what a fetch does to each instance, and that it does nothing else |
| NdicRuns.ActiveSetIsTheFetch | backend/ndic-preprocessor/src/runtime.go:69-156 | after every fetch, whatever went before, exactly its sources are active |
| NdicRuns.CountOfFetch | backend/ndic-preprocessor/src/runtime.go:69-156 | how many messages of each kind a fetch gives each instance |
| NdicRuns.EveryFetchOfARun | backend/ndic-preprocessor/src/runtime.go:69-156 | in every fetch of a run: one active message for each snapshot, one closing for each instance that vanished since the previous fetch |
| NdicReports.ActiveReportsItsSource | backend/ndic-preprocessor/src/runtime.go:74-113 | every active message of a run carries the snapshot of its source in that fetch, the tags of the snapshot, and its time or else the time of publication |
| NdicRuns.ClosingCarriesLastTags | backend/ndic-preprocessor/src/runtime.go:125-156 | a closing message carries the tags of the last snapshot and the time of the fetch that lacks it, within the jitter |
| NdicRuns.SyntheticStartOnlyInFirstFetch | backend/ndic-preprocessor/src/runtime.go:101-111 | an instance starts synthetically at most once in a run, in the first fetch that mentions it, exactly if that fetch is late |
| NdicRuns.SyntheticStartsPrecedeTheirActives | backend/ndic-preprocessor/src/runtime.go:109-113 | in every fetch of a run each synthetic start stands directly before the active message of its instance, with its tags, dated within the jitter of the start of the service |
| NdicRuns.Track | backend/ndic-preprocessor/src/fetch.go:27-41 | the tracker fed one fetch after the other performs a run and publishes its log |
| WazeRuns.Track | backend/wazejam-preprocessor/src/main.go:92-95 | the tracker that fetches over and over performs a run, in which failed fetches change and publish nothing, and publishes its log |
| WazeRuns.DevicesAreTheLastFeed | backend/wazejam-preprocessor/src/lifecycle.go:135-139 | exactly the segments of the last feed that was read are active, with its tags |
| WazeRuns.EveryFeedOfARun | backend/wazejam-preprocessor/src/lifecycle.go:80-162 | in every feed of a run: one active message for each segment, a startup zero for each one that the previous feed lacked and that has an event time since the start, one closing for each one that vanished |
| WazeRuns.ClosingCarriesLastTags | backend/wazejam-preprocessor/src/lifecycle.go:141-147 | a closing message carries the tags of the segment's aggregate in the previous feed and the time of the fetch that lacks it |
| TrackerSimulation.NdicIsAFlagMap | backend/ndic-preprocessor/src/runtime.go:69-156 | an NDIC fetch is a step of a growing flag map |
| TrackerSimulation.WazeIsASwappedMap | backend/wazejam-preprocessor/src/lifecycle.go:135-147 | a Waze fetch is a swap of the key set, with one closing message for exactly the keys that the swap closes |
| Presence.TrackersAgree | backend/ndic-preprocessor/src/runtime.go:69-156 | fed the same observations, flag map and swapped set hold the same keys and close previous minus current at every step |
| Presence.ClosuresAreEndedBlocks | backend/ndic-preprocessor/src/runtime.go:125-156 | the flag map closes a key once for every maximal block of its presence that ended |
| TrackerSimulation.NdicClosingsAreEndedBlocks | backend/ndic-preprocessor/src/runtime.go:69-156 | a run of the NDIC tracker is a run of the flag map, and over it an instance gets one closing message for every maximal block of fetches that mention it and that has ended |
| TrackerSimulation.WazeClosingsAreEndedBlocks | backend/wazejam-preprocessor/src/lifecycle.go:117-147 | a run of the Waze tracker is a run of the swapped set, failed fetches left out, and over it a segment gets one closing message for every maximal block of feeds that contain it and that has ended |
| TrackerSimulation.TrackersCloseAlike | backend/wazejam-preprocessor/src/lifecycle.go:117-147 | in any two runs, an NDIC instance and a Waze segment that are present at the same steps are active alike and closed at the same steps, equally often |
| TrackerSimulation.TrackersCloseTheSame | backend/ndic-preprocessor/src/runtime.go:125-156 | if the feeds of a Waze run contain exactly the instances of an NDIC run under other, distinct names, the segments closed at each step are exactly the instances closed at that step under those names |
| KpiCodec.DiscriminatorRoundTrip | backend/commons/src/sharedModel/json.go:102-140 | the node type that is written is the one that is found |
| KpiFields.DiscriminatorIsComposed | backend/commons/src/sharedModel/kpiDefinitionModel.go:24-45 | the names of the node types, put together from value kind and operation |
| KpiCodec.DiscriminatorOverwritesNothing | backend/commons/src/sharedModel/json.go:22-32 | the discriminator is no field of any node, and every field is written |
| KpiCodec.MarshalKPINode | backend/commons/src/sharedModel/json.go:22-32 | the loop over the fields writes the object that the decoder is proved against |
| KpiFields.EncodedObject | backend/commons/src/sharedModel/json.go:22-32 | every node is written as an object with exactly its keys, children in order, nil slices and nil children as null |
| KpiFields.DecodedAtomIsGiven | backend/commons/src/sharedModel/json.go:142-152 | for every object and every atom: it decodes to that atom exactly if it names the type and every key of the type holds its value, or is missing or null where that is the zero value |
| KpiFields.DecodedLogicalIsGiven | backend/commons/src/sharedModel/json.go:142-173 | for every object and every logical operation: it decodes to that exactly if it names the type, gives the operation, and lists children that decode themselves, in order |
| KpiFields.WhereTheDecoderPanics | backend/commons/src/sharedModel/json.go:102-152 | null and an object with a missing, null or unknown type panic, what is no object or has a type that is no string is an error |
| KpiCodec.AtomRoundTrip | backend/commons/src/sharedModel/json.go:142-152 | every atom is read back equal |
| KpiCodec.RoundTrip | backend/commons/src/sharedModel/json.go:142-173 | every tree without nil elements comes back with nil for its empty slices |
| KpiCodec.RoundTripIsExact | backend/commons/src/sharedModel/json.go:22-173 | for every tree: equal again if and only if it has neither nil elements nor empty slices; a panic exactly if it has a nil element; never an error |
| KpiCodec.DecodedIsStable | backend/commons/src/sharedModel/json.go:142-173 | whatever decodes, from any JSON, survives every later round trip |
| KpiDefinitions.HeaderRoundTrip | backend/commons/src/sharedModel/json.go:210-224 | every other field of a definition comes back, omitted or not, nil or empty |
| KpiDefinitions.DefinitionRoundTripIsExact | backend/commons/src/sharedModel/json.go:175-224 | the exact law for MPU definitions |
| KpiDefinitions.DefinitionIsGiven | backend/commons/src/sharedModel/json.go:175-192 | for every JSON value and every definition: it is read exactly if the keys give the fields and the root node decodes; a panic exactly on null or on a readable object whose root node panics |
| Batches.PublishJSONBatches | backend/commons/src/rabbitmq/client.go:420-441 | whole batches go out in order up to the first failure to serialize or publish, and success means all of them |
| Batches.BatchesAreTheInput | backend/commons/src/rabbitmq/client.go:420-441 | the batches concatenate to the input |
| Batches.BatchSizes | backend/commons/src/rabbitmq/client.go:420-441 | length divided by size, rounded up; all but the last are full; a size that is not positive means one batch |
| Batches.WholeBatchPrefixIsSent | backend/commons/src/rabbitmq/client.go:420-441 | wherever publishing stops, a whole-batch prefix of the input was sent |

## Left out

- Connections, HTTP, WebSocket, RabbitMQ channels, logging, environment and configuration: plumbing without decisions of its own.
- Lexing of CSV, ZIP, XML and JSON text, and the regular expressions: the model starts from parsed rows, decoded elements and JSON values. `parseElaboratedData` and `decodeBasicData` are not modelled.
- Hash functions: trip hashes are an arbitrary function to strings, UID hashes an arbitrary function to 32-bit values.
- Time zones with changing offsets: the zone is a fixed offset.
- Rounding, infinities and NaN of floating-point values.
- Registration of instances, which checks and marks in two separate critical sections and whose set other messages replace.
- Labels and the fields of a trip definition that only labels use (names, headsign, route short name), and `Label` on UID collision, where the first visitor wins.
- GoTime.ClockRoundTrip: instants are unbounded integers, so the wrap-around of `time.Date` and `AddDate` for clocks of billions of years is not modelled.
- GoTime.ClockIsRead: the same bound applies to instants; the numbers themselves are the 64-bit ones of the code.
- Schedule.SharedUID: the hash is an arbitrary function, so the second half speaks of hashes without collisions.
- Entries of the instance maps of the MHD and NDIC trackers are values that the map is updated with, not objects of their own; nothing else holds a reference to them.
- Raw jams and bucket lists are sequences that a field or a map entry is assigned, so the sharing of backing arrays between slices is not captured.
- Sorting buckets and occurrences uses the stable sort of the model; for equal departures Go may leave any order, and no contract depends on it beyond the order of the index itself.
- Service day codes other than the seven that `weekdaysToCodes` produces.
- MhdRuntime.Tracker.PublishNext: a publication that the broker refuses is an attempt that was not delivered; retries inside the client are not modelled.
- KpiCodec.Decode: keys match exactly, without the case-insensitive fallback; a number is its value, so `1.0` and `1` are the same; invalid UTF-8, duplicate keys and the nesting limit of the text parser (10,000 levels) have no counterpart.
- KpiDefinitions.EncodeDefinition: a definition always has a root node; encoding one with a nil root panics. The encoder of `KPIDefinition`, which has no decoder, is not modelled.
- NdicRuntime.Runtime.ProcessFetchResult: the tags of a snapshot are an arbitrary function of it, so the TMC metadata that enriches them is not modelled.
- WazeLifecycle.WazeTracker.FetchAndProcessWazeData: the clock is read once per jam without a publication time and once for the closings; publishing the resulting list is the batch publisher's matter.
