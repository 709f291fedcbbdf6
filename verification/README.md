# kcp-cluster-api: a model of what decides things without a server

This project models the parts of the repository whose answers do not depend on a live kcp
server, and proves what they promise. Each Dafny file follows one part of the source.

| file | models |
|---|---|
| `Regression.dfy` | the least-squares fit and the sweep's own slope formula (`internal/scaleharness/model.go`, `internal/sweep/report.go`) |
| `ResourceModel.dfy` | fitting, predicting from and validating a resource model (`internal/scaleharness/model.go`) |
| `Departure.dfy`, `Retention.dfy`, `Samples.dfy` | where cost departs from linear, and what departed workspaces still cost (`internal/sweep`) |
| `Classify.dfy`, `Counter.dfy` | reducing a request to verb, cluster and resource, and counting them (`internal/sweep`) |
| `Wiring.dfy`, `WiringAccounts.dfy` | the per-workspace wiring protocol, and what its counters and flags stand for (`internal/providerwiring/wiring.go`) |
| `Claims.dfy`, `ClaimController.dfy` | permission claims and the controller that keeps them (`internal/capiexports`) |
| `Roles.dfy`, `Initializer.dfy` | workspace roles, their reconciliation, the initializer and its retries (`internal/capiworkspaces`) |
| `Telemetry.dfy` | the telemetry recorder (`internal/workspacetelemetry/telemetry.go`) |
| `ChangeWriter.dfy` | the line-deduplicating writer (`internal/workloaddiag/changewriter.go`) |
| `Planning.dfy` | workspace planning and the contexts of generated kubeconfigs (`internal/demo`) |
| `Ordering.dfy`, `Sums.dfy`, `MapSums.dfy`, `Decimal.dfy`, `Options.dfy` | string order and sorting, sums, decimal numerals: what the code takes from Go's standard library |

Conventions. Floating-point numbers are reals; counts are unbounded integers, except where the
source reads a number from text (`Decimal.Atoi` saturates at 64 bits). The API server is a map
with get, create and update; a listing, like a range over a Go map, comes in any order. Go's
sort is not stable, so `Ordering.SortFunc` promises a sorted permutation and nothing more.
Objects that change in place are classes whose methods state the whole new state by a function
of the old one; loops are loops. The wiring's goroutines are threads of a state machine with one
step for each critical section or blocking point, over any number of workspaces, contexts and
groups; the classes of `WiringObjects` show that each critical section of the source's objects
takes the shared state exactly where the corresponding step does.

## What the code does not do

Where a promise of the source's own comments or of its design fails, the code is modelled as it
is, a lemma at an input or a run exhibits the failure, and another gives the exact condition
under which the promise holds.

* `FindDeparture` says that two runs over one set of points agree whatever order they arrived
  in. The sort is unstable, so with two different points at the second-smallest count they may
  not (`TiesAreAmbiguous`). They agree exactly when there are too few points, or the smallest
  count is taken twice, or every point at the second-smallest count gives the same answer
  (`AnswerIsDetermined`); for positive values and all tolerances, exactly when the smallest count
  is taken twice or no two different points share the second-smallest
  (`AgreesAtEveryTolerance`). Ties past the second point never matter. `Report.Departure` always
  supplies points on which runs agree.
* `Report.Departure` says that only samples taken while workspaces were being added are
  considered. A teardown sample at a count never seen before, zero above all, is considered too
  (`TeardownIsScanned`), and can change the verdict (`TeardownChangesTheVerdict`).
* `Classify` says that it is indifferent to which virtual workspace a request went through. It
  takes the first `clusters` segment of the path for the one before the cluster, so under a prefix
  that holds one a request is misclassified, unless what follows in the prefix happens to read as
  the request; `ClassifyIsRightExactlyWhen` gives the condition for every prefix. Nothing is
  right when the prefix's first `clusters` segment is its last or the one before
  (`NeverRightNearTheEnd`); so under kcp's four-segment prefixes a request is misclassified exactly
  when its workspace or its APIExport is named `clusters`, or for the reason below
  (`UnderAnExport`). `PrefixedByClusters` says what is reported under such a prefix.
* `Classify` reads a subresource of a namespace itself as a collection named after the
  subresource (`StatusIsMisread`; `ClassifyIsRightExactlyWhen`), and takes a path that is
  addressed to no cluster for one that is when a segment before its last is `clusters`
  (`UnaddressedClusterIsMisread`; `UnaddressedPath`).
* The comment on `Validation.Extrapolated` says that the endpoints of a sweep are extrapolated. An
  endpoint whose count is measured twice is not (`TiedEndpointIsWithin`): in any run, exactly the
  measurements strictly below or strictly above all others are (`ExtrapolatedExactlyWhen`).
* The recorder's documentation says that counters are kept for engaged workspaces and that nothing
  outlives one. A reconcile counted after its workspace was disengaged, as by a runnable still
  being stopped, is kept until the next disengagement, which may never come
  (`LateReconcileIsKept`, `CounterOutlivesItsWorkspace`). Tracked are exactly the engaged
  workspaces when, and only when, every workspace with a reconcile since it was last disengaged
  was also engaged since (`TrackedAreEngagedExactlyWhen`); throughout a history, when and only when
  each reconcile is of a workspace engaged at the time (`AlwaysEngagedExactlyWhen`).
* `ReconcileClaims` says that it is quiet when nothing changed. Two providers that want different
  claims of one export have it rewritten by every pass (`ConflictingWantsAreRewritten`); after a
  successful pass the next is quiet exactly when no two do (`ReconcileReachesAFixpoint`).
* `applyRole` takes a lost race on create for another reconcile of its own. If a stranger created
  the role, the workspace is released without it (`StrangerIsTakenForAPeer`); released roles are
  right exactly when no stranger won (`ReleasedRolesAreRight`). If a peer that wanted other rules
  created it, repeating `ReconcileRoles` writes (`PeersOtherRulesAreRewritten`), and it writes
  exactly then, unless a role before it was a stranger's or went to one
  (`RepeatingWritesNothing`).
* `Wiring.disengage` goes by name, so a watcher can take, and stop, a later group of its
  workspace whose context is live: `AWatcherTakesAnothers` is such a run from the start, after a
  failed setup. A watcher takes its own group exactly when no earlier step took that out of the
  map (`WatchersTakeTheirOwn`). What can have done so is `Start`'s drain, the group's own failed
  setup, or a watcher or failed setup of an earlier group of the workspace that was out already
  (`WhoTookItBefore`); so while no setup of the workspace has failed and no `Start` has drained,
  every watcher of the workspace takes its own (`UntroubledWatchersTakeTheirOwn`).
* `Predict` never calls a fleet extrapolated when the highest count measured is not positive,
  although every fleet it answers for is then outside the range (`NothingIsExtrapolated`); with a
  positive one it does so exactly outside the range (`PredictionStaysInRegime`). Such a fit needs
  a negative workspace count among the measurements, since the counts must differ; no sweep
  measures one.
* Adding a reason to claim can narrow a claim (`AnotherReasonNarrowsADefault`) in one case: it had
  no verbs, which is written as every verb, and now has some but not `*`
  (`MoreReasonsNarrowOnlyDefaults`).
* Two kubeconfigs are written to one file exactly when a user is called `workspaces`, which
  `validateUsers` accepts (`FilesAreDistinctExactlyWhen`, `OperatorsNameIsAccepted`).
* The documentation of `Result.Org` (`internal/demo/demo.go`, line 448) says that it is empty
  when the run had no users; the code fills it in always (line 885). So the operator's kubeconfig
  addresses a workspace that the run did not make exactly when there are no users and the org
  path is not empty (`OperatorAddressesTheRunExactlyWhen`).

One branch of `RetainedDetail` is never taken: it prefers more departures at equal cost, but the
scan goes by increasing count, so a later candidate always has fewer
(`LaterCandidatesDepartLess`). The branch is kept; the preference holds all the same, by the
order of the scan.

## Model

| member | source | states |
|---|---|---|
| Regression.LeastSquares | internal/scaleharness/model.go:475-513 | errors exactly when every x is the same; otherwise the returned line has a strictly smaller squared error than every other real line, and R² is the share of the variation it accounts for (1 when there is none) |
| Regression.Totals | internal/scaleharness/model.go:476-482 | the first loop computes the sums of x and of y |
| Regression.CentredTotals | internal/scaleharness/model.go:484-489 | the second loop computes the centred sums |
| Regression.ResidualTotals | internal/scaleharness/model.go:497-503 | the third loop computes the squared error of the line and of the mean |
| Regression.Pythagoras | internal/scaleharness/model.go:474-475 | any other line's squared error exceeds that of a line with orthogonal residuals by the squared size of their difference |
| Regression.NoSpreadIsSameX | internal/scaleharness/model.go:490-492 | the centred sum of squares is zero exactly when all x are equal |
| Regression.FitIsUnique | internal/scaleharness/model.go:474-513 | at most one line and R² can be the least-squares fit of given points |
| Regression.FitIgnoresOrder | internal/scaleharness/model.go:474-513 | the fit of a permutation of the points is the same fit |
| Regression.RSquaredMeaning | internal/scaleharness/model.go:504-510 | R² lies between 0 and 1, and is 1 exactly when every point lies on the line |
| Regression.MeanIsBestLevel | internal/scaleharness/model.go:496-510 | the variation R² is a share of is that about the mean: every other level is further from the points |
| Regression.LineIsRecovered | internal/scaleharness/model.go:474-513 | points exactly on a line fit to that line with R² = 1 |
| Regression.PerWorkspace | internal/sweep/report.go:273-293 | NaN exactly when all workspace counts agree; otherwise the slope of the least-squares line of the same points, although computed from raw sums |
| Regression.RawSlopeIsCentred | internal/sweep/report.go:288-292 | the raw-sum slope solves the centred equation |
| ResourceModel.Fit | internal/scaleharness/model.go:182-260 | the outcome is the one the measurements determine: which error, or the least-squares line of each quantity the run recorded, with the regime |
| ResourceModel.FitFailsExactlyWhen | internal/scaleharness/model.go:182-204 | a run is invalid exactly without a service, a known mode or a profile name, with a negative shape, or with events on no objects; otherwise it fails exactly for fewer than three measurements or equal counts |
| ResourceModel.EachLineIsBest | internal/scaleharness/model.go:197-258 | of all lines, the heap line strictly minimises the squared error in `heapBytes`, the goroutine line that in `goroutines`, and, when every measurement has process figures, the process line that in `processBytes` and the stack line that in `stackBytes` |
| ResourceModel.FitDependsOnMeasurementsOnly | internal/scaleharness/model.go:194-195 | two fits of the same measurements in any order give the same outcome |
| ResourceModel.PredictionStaysInRegime | internal/scaleharness/model.go:283-335 | a prediction is refused exactly for a non-positive fleet or a profile, listener count, object count or event rate that was not measured; it is marked extrapolated exactly outside the measured range, when that reaches a positive count |
| ResourceModel.FactorMeaning | internal/scaleharness/model.go:294-307 | the factor is the fleet over the highest count measured, or the lowest over the fleet |
| ResourceModel.PredictionMeaning | internal/scaleharness/model.go:294-334 | each figure is the height of the best line through that figure of the measurements; without process figures resident memory is twice the heap and 128 MiB, and no stacks are predicted |
| ResourceModel.ResidentMeaning | internal/scaleharness/model.go:379-384 | the live heap may grow by GOGC percent, 100 unless it is positive, and what is not heap comes on top |
| ResourceModel.NothingIsExtrapolated | internal/scaleharness/model.go:297-307 | a valid run whose fitted model calls no fleet extrapolated |
| ResourceModel.LinearCostIsProjectedExactly | internal/scaleharness/model.go:294-334 | if the `heapBytes`, `goroutines`, `processBytes` or `stackBytes` of the measurements lie on a line, the heap, goroutines, resident memory or stacks predicted lie on it at every fleet size |
| ResourceModel.HoldOneOut | internal/scaleharness/model.go:429-459 | the verdict on one measurement comes from a model fitted to the others |
| ResourceModel.HoldOut | internal/scaleharness/model.go:419-462 | fails for too few points or when some reduced fit does; otherwise one verdict for each measurement, in workspace order |
| ResourceModel.HoldOutFailsExactlyWhen | internal/scaleharness/model.go:419-440 | it fails exactly for too few measurements, for a run that is not valid, and when without some one measurement all counts agree |
| ResourceModel.HoldOutIgnoresOrder | internal/scaleharness/model.go:425-462 | on distinct counts the outcome does not depend on the order of the measurements |
| ResourceModel.ValidationsFollowMeasurements | internal/scaleharness/model.go:449-459 | each verdict carries its own measurement's count and figures |
| ResourceModel.ValidationMeaning | internal/scaleharness/model.go:407-459 | heap and goroutines of the held-out measurement are predicted by the best lines through the others, and each error times the measured figure is the distance, infinite when nothing was measured and something predicted |
| ResourceModel.LinearCostIsPredictedExactly | internal/scaleharness/model.go:407-418 | on measurements exactly on a line every error fraction is zero, at the endpoints too |
| ResourceModel.ExtrapolatedExactlyWhen | internal/scaleharness/model.go:399-404 | in every run exactly a measurement whose count is strictly below every other, or strictly above every other, is marked extrapolated |
| ResourceModel.EndpointsAreExtrapolated | internal/scaleharness/model.go:399-404 | that is, of the sorted measurements exactly an endpoint whose count is not tied |
| ResourceModel.TiedEndpointIsWithin | internal/scaleharness/model.go:399-404 | four measurements whose lower endpoint is not marked |
| Departures.FindDeparture | internal/sweep/departure.go:126-178 | the result is the one some count-ordered arrangement of the points gives, under the defaulted tolerance and minimum |
| Departures.Scan | internal/sweep/departure.go:160-173 | the scan finds the first point above a positive projection by more than the tolerance, skipping non-positive projections |
| Departures.ThroughMeetsBoth | internal/sweep/departure.go:157-158 | the projected line passes through both of the points it is taken from |
| Departures.ThroughIsUnique | internal/sweep/departure.go:157-158 | it is the only line that does |
| Departures.AnswerIsDetermined | internal/sweep/departure.go:145-172 | all runs over the points agree exactly when there are too few, or the smallest count is taken twice, or every point at the second-smallest count gives the same answer |
| Departures.AgreesAtEveryTolerance | internal/sweep/departure.go:145-172 | of enough points with positive values, they agree at every tolerance exactly when the smallest count is taken twice or no two different points share the second-smallest |
| Departures.LateTiesNeverMatter | internal/sweep/departure.go:145-172 | without a condition on values, no two different points at the second-smallest count suffices: ties past it never matter |
| Departures.OnlyTheOrderIsOpen | internal/sweep/departure.go:145-148 | which results are possible depends on the points alone |
| Departures.DepartureIgnoresOrder | internal/sweep/departure.go:145-148 | two runs over one set of points, read in any two orders, agree under the exact condition |
| Departures.TiesAreAmbiguous | internal/sweep/departure.go:145-148 | otherwise they may not: four points that both have and have not a departure |
| Departures.DepartureMeaning | internal/sweep/departure.go:96-98 | for any points the possible results are: could not run, when there are too few or the smallest count is taken twice; otherwise, for some point of the smallest and one of the second-smallest count, the smallest count at which a value exceeds a positive projection from the two by more than the tolerance, or none |
| Departures.ReportedMeaning | internal/sweep/departure.go:121-178 | what is reported, in terms of the points and options: the tolerance, a quarter unless positive; too few points, four unless positive; a shared smallest count; or the smallest count at which a point is above the line through a smallest and a next smallest point, where that is positive, by more than that fraction of it |
| Departures.LeastWhereMeaning | internal/sweep/departure.go:160-173 | the count reported is that of a point that exceeds, and the smallest such; none is reported exactly when no point does |
| Departures.EndsNeverDepart | internal/sweep/departure.go:157-168 | the two points projected from never exceed the projection themselves |
| Departures.LooserDetects | internal/sweep/departure.go:160-173 | for one arrangement of any points, a departure at a higher tolerance is one at a lower positive tolerance, at no higher count |
| Departures.RaisingToleranceOnlyDelays | internal/sweep/departure.go:66-69 | raising a positive tolerance never creates a departure nor lowers its count, as soon as runs at the lower tolerance agree |
| Departures.DelaysExactlyWhenAgreed | internal/sweep/departure.go:66-69 | and at all positive tolerances exactly when runs agree at all of them |
| Departures.LinearNeverDeparts | internal/sweep/departure.go:160-177 | exactly linear points never depart |
| Departures.ReportDeparture | internal/sweep/report.go:428-439 | the report's departure is that of the first sample past the baseline at each count |
| Departures.ReportNeverSharesCounts | internal/sweep/report.go:424-427 | the points a report supplies have distinct counts, so the shared-count branch is unreachable from it and runs agree |
| Departures.TeardownIsScanned | internal/sweep/report.go:424-437 | only samples of workspaces being added are considered exactly when every teardown is to a count reached before |
| Departures.TeardownChangesTheVerdict | internal/sweep/report.go:424-439 | a linear sweep of four workspaces that departs at two once the teardown sample at zero is projected from |
| Retained.RetainedDetail | internal/sweep/retained.go:71-133 | no answer exactly when no two samples can be compared; otherwise the last active and the last teardown sample of one count, the departures up to the peak, and a cost that times those departures is what the teardown reading is above the active one; no pair costs less, and none as little has more departures |
| Retained.Collect | internal/sweep/retained.go:72-87 | the maps hold the last sample of each phase at each count, and the peak is the highest active count |
| Retained.LatestMeaning | internal/sweep/retained.go:75-87 | what a map holds is the sample of the phase and count that no later one follows |
| Retained.ComparableMeaning | internal/sweep/retained.go:51-64 | a count is comparable exactly when both phases sampled it and some active count is higher |
| Retained.AnswerMeaning | internal/sweep/retained.go:92-128 | the specified answer is that in terms of samples and readings alone |
| Retained.AnswerIsUnique | internal/sweep/retained.go:92-100 | the answer is determined by the samples |
| Retained.NoiseOnlyInflates | internal/sweep/retained.go:51-57 | if no teardown reading is above its active one by less than rho for each departure, the answer is at least rho, and rho exactly when some pair reads exactly that |
| Retained.LaterCandidatesDepartLess | internal/sweep/retained.go:92-127 | along increasing counts a later candidate has fewer departures than the best so far, so the tie-break is never taken |
| Classification.SplitPath | internal/sweep/classify.go:217-225 | the segments are the maximal runs without a slash |
| Classification.Trim | internal/sweep/classify.go:219 | trimming slashes loses no segment and leaves none at either end |
| Classification.SegmentsOfSpelled | internal/sweep/classify.go:217-225 | segments written out behind any runs of slashes are read back as they were |
| Classification.IndexOf | internal/sweep/classify.go:227-234 | the first position of the segment, or -1 when it does not occur |
| Classification.Classify | internal/sweep/classify.go:129-215 | the loop and branches of the source compute the classification of the path's segments |
| Classification.ClassifyReadsBack | internal/sweep/classify.go:121-128 | for every prefix without a `clusters` segment, every cluster, group, version, namespace, resource, name and subresource, the printed path is classified with that cluster, group/resource and verb, except a namespace's own subresource |
| Classification.ClassifyIsRightExactlyWhen | internal/sweep/classify.go:121-190 | under every virtual-workspace prefix a request is classified with its own verb, cluster and resource exactly when: without a `clusters` segment in the prefix, it is not the subresource of a namespace, but for one that is not told apart; with one, the rest of the prefix repeats the cluster and goes on as an API path to the same resource, and being named makes no difference to the verb |
| Classification.NeverRightNearTheEnd | internal/sweep/classify.go:121-137 | when the first `clusters` segment of the prefix is its last or the one before, no request is classified as what it addresses |
| Classification.UnderAnExport | internal/sweep/classify.go:121-137 | under kcp's four-segment prefixes a request is classified right exactly when neither the workspace nor the export is called `clusters` and it is not such a subresource |
| Classification.StatusIsMisread | internal/sweep/classify.go:176-190 | reading the status of a namespace is reported as a listing of statuses |
| Classification.VerbReadsBack | internal/sweep/classify.go:190-212 | the verb recorded for each method, watch, watched list, read of one object and read of many |
| Classification.DiscoveryReadsBack | internal/sweep/classify.go:139-187 | discovery keeps the group of a group or group-version, and records nothing otherwise |
| Classification.PrefixedByClusters | internal/sweep/classify.go:132-187 | under a prefix with a `clusters` segment, what follows the first is reported as the cluster, and the request is reported as other exactly when the segment after that starts no path of the API surface |
| Classification.WrittenPathReadsBack | internal/sweep/classify.go:121-225 | the same condition, from the path as text, however many slashes separate its segments |
| Classification.UnaddressedPath | internal/sweep/classify.go:134-137 | a path addressed to no cluster is taken for one that is exactly when a segment before its last is `clusters`, and is classified as it should be exactly when none is, but for the same exception |
| Classification.UnaddressedClusterIsMisread | internal/sweep/classify.go:134-142 | reading one cluster of an unaddressed server is reported as discovery |
| Classification.SurfaceMeaning | internal/sweep/classify.go:139-187 | exactly the paths of the API surface are discovery, and exactly those outside it and its objects are other |
| Classification.ResourcesAreDistinct | internal/sweep/classify.go:113-118 | group and resource can be told apart again in the recorded name |
| Counting.Counter.Observe | internal/sweep/counter.go:77-81 | one more request in the history, and the counts are still its tally |
| Counting.Counter.Snapshot | internal/sweep/counter.go:67-71 | the tally of every request so far |
| Counting.Counter.RoundTrip | internal/sweep/counter.go:93-96 | the request is counted under its classification as it is sent |
| Counting.Total | internal/sweep/classify.go:341-349 | the sum of the counts of the matching requests |
| Counting.Streams | internal/sweep/classify.go:307-315 | the number of distinct matching requests |
| Counting.DistinctStreams | internal/sweep/classify.go:328-338 | the number of distinct cluster and resource pairs among them |
| Counting.Sub | internal/sweep/classify.go:354-362 | the difference at every key that changed |
| Counting.TotalIsMatching | internal/sweep/classify.go:340-349 | for the counts of any history, Total is the number of requests in it that match |
| Counting.StreamsAreDistinct | internal/sweep/classify.go:301-338 | and Streams and DistinctStreams are the numbers of distinct requests and of distinct pairs in it |
| Counting.CountsAreOrdered | internal/sweep/classify.go:238-242 | distinct streams are at most streams, and streams at most calls |
| Counting.SubIsWhatHappenedBetween | internal/sweep/classify.go:351-353 | a later snapshot less an earlier one is exactly the tally of the requests in between |
| Counting.TrafficOf | internal/sweep/report.go:71-80 | every figure of the report in terms of the request history |
| Counting.TrafficMeaning | internal/sweep/report.go:71-80 | in terms of the requests: distinct cluster and resource pairs of watches and watched lists, those of the cluster `*`, those of one workspace, the numbers of lists and of discovery requests, and of all |
| Counting.WatchesDivide | internal/sweep/report.go:71-80 | watch streams are wildcard, scoped and unaddressed ones, and none is two of these |
| WiringProtocol.StepKeepsInv | internal/providerwiring/wiring.go:134-286 | whatever step any goroutine takes, every group ever created stays in exactly one place |
| WiringProtocol.EachGroupIsInOnePlace | internal/providerwiring/wiring.go:134-234 | in every state of every run each group is registered in the map, or owed a stop by exactly one thread in one position, or stopped, and never two of these |
| WiringProtocol.StoppedGroupsStayStopped | internal/providerwiring/wiring.go:278-286 | a group whose stop has returned has nothing running and refuses every later runnable, in every later state |
| WiringProtocol.QuiescedIsEmpty | internal/providerwiring/wiring.go:148-155 | once every watcher has fired and disengaged and no Engage is in flight, nothing is registered, and each group is stopped with nothing running or is owed a stop by some thread |
| WiringProtocol.AtRestNothingRuns | internal/providerwiring/wiring.go:148-155 | and once no stop is in progress either, nothing runs |
| WiringAccounts.RunningMeaning | internal/providerwiring/wiring.go:261-275 | in every run what a group has running is the number of runnables added to it before it refused less the number that returned |
| WiringAccounts.StoppedMeansReturned | internal/providerwiring/wiring.go:278-286 | once a stop of a group has returned, every runnable it ever started has returned, and it never starts another |
| WiringAccounts.FlagsMeaning | internal/providerwiring/wiring.go:278-286 | in every run a group refuses, is cancelled and is released exactly when a step of a stop of that group did so |
| WiringAccounts.LiveGroupsStayEngaged | internal/providerwiring/wiring.go:148-155 | while no setup of the workspace has failed and no Start has drained, a group whose context is not cancelled is registered |
| WiringAccounts.StartDrainsOnce | internal/providerwiring/wiring.go:188-209 | however often Start is called the map is drained at most once, by a call of Start whose context was cancelled |
| WiringAccounts.GroupsComeFromCalls | internal/providerwiring/wiring.go:134-146 | in every run a group is for the workspace and context of some call of Engage |
| WiringProtocol.WatchersTakeTheirOwn | internal/providerwiring/wiring.go:148-155 | in every run, a watcher takes its own group out of the map, and owes that one a stop, exactly when no earlier step took it out |
| WiringProtocol.InMapUntilTakenOut | internal/providerwiring/wiring.go:145-225 | in every run a group is in the map from its registration until a step takes it out, and never again |
| WiringProtocol.TakesOutMeaning | internal/providerwiring/wiring.go:200-225 | what takes a group out is a drain, or a disengage of its workspace, and nothing else |
| WiringProtocol.WhoTookItBefore | internal/providerwiring/wiring.go:157-225 | what can have taken a group out before its watcher: a drain, the group's own failed setup, or a watcher or failed setup of an earlier group of the workspace, which was out already |
| WiringProtocol.UntroubledWatchersTakeTheirOwn | internal/providerwiring/wiring.go:148-155 | while no setup of the workspace has failed and no Start has drained, every disengage of the workspace is a watcher's and takes its own group |
| WiringProtocol.StaleWatcherTakesALaterGroup | internal/providerwiring/wiring.go:148-155 | from any state with a watcher whose workspace has no group, steps by which it takes a later group, whose own context is live |
| WiringProtocol.FailedSetupLeavesItsWatcher | internal/providerwiring/wiring.go:157-168 | in every run a failed setup whose group is still registered leaves that group's watcher, waiting or about to disengage, on a workspace without a group |
| WiringProtocol.AWatcherTakesAnothers | internal/providerwiring/wiring.go:148-168 | a run from the start in which a watcher takes a group that is not its own and whose context is live |
| WiringObjects.RunnableGroup.AddRunnable | internal/providerwiring/wiring.go:261-276 | a runnable starts exactly when the group does not refuse |
| WiringObjects.RunnableGroup.RunnableReturns | internal/providerwiring/wiring.go:268-270 | a runnable that returns lowers the count by exactly one |
| WiringObjects.Wiring.EngageLocks | internal/providerwiring/wiring.go:137-146 | the first critical section of Engage is the protocol's step |
| WiringObjects.Wiring.DisengageLocks | internal/providerwiring/wiring.go:222-225 | the critical section of disengage is the protocol's step |
| WiringObjects.Wiring.StartLocks | internal/providerwiring/wiring.go:190-196 | a second Start is refused |
| WiringObjects.Wiring.StartDrains | internal/providerwiring/wiring.go:200-203 | Start takes every registered group once and leaves the map empty |
| WiringObjects.Wiring.Engaged | internal/providerwiring/wiring.go:212-216 | the registered workspaces in string order |
| Claims.UnionVerbs | internal/capiexports/capiexports.go:615-648 | the normal form of the union of two verb lists |
| Claims.UnionLaws | internal/capiexports/capiexports.go:610-627 | union is commutative, associative and idempotent, and `*` absorbs |
| Claims.NormalElements | internal/capiexports/capiexports.go:602-608 | normal form keeps the set of verbs, or `*` alone |
| Claims.NormalInOrder | internal/capiexports/capiexports.go:602-647 | known verbs once each in the order get, list, watch, create, update, patch, delete, deletecollection, then the unknown ones by name |
| Claims.CollectIgnoresOrder | internal/capiexports/capiexports.go:522-564 | what is gathered depends only on which reasons there are, not on their order or repetition |
| Claims.GatheredMeaning | internal/capiexports/capiexports.go:529-564 | in terms of the lists: a verb is gathered for a resource and identity exactly when a core claim lists it and the identity is empty, a named export of that known identity has it listed, or another export of that identity and of a contract in use publishes the resource and the contract's verbs have it; likewise which resources occur |
| Claims.ClaimsFor | internal/capiexports/capiexports.go:522-591 | the loops return the claim list specified, in key order, each key once: on exactly the resources and identities that occur, granting exactly what is asked for there, or every verb when nothing or `*` is |
| Claims.ClaimsMeaning | internal/capiexports/capiexports.go:566-590 | the list specified is that in terms of the core claims, the named exports and the discovered ones |
| Claims.ClaimsAreCanonical | internal/capiexports/capiexports.go:566-590 | strictly sorted by group, resource and identity, verbs in normal form, never empty |
| Claims.CanonicalIsUnique | internal/capiexports/capiexports.go:509-512 | two canonical lists that claim the same are equal |
| Claims.ClaimIsForItsKey | internal/capiexports/capiexports.go:566-579 | each claim carries exactly the verbs gathered for its key |
| Claims.EveryKeyIsClaimed | internal/capiexports/capiexports.go:566-579 | no key that somebody wants is left out |
| Claims.ClaimsIgnoreOrder | internal/capiexports/capiexports.go:506-509 | providers with the same reasons, however listed or repeated, get the same claim list |
| Claims.ClaimGrants | internal/capiexports/capiexports.go:567-573 | a claim grants what was asked, or everything when nothing was |
| Claims.MoreReasonsNarrowOnlyDefaults | internal/capiexports/capiexports.go:566-573 | more reasons never drop a claim, and narrow one exactly when it had no verbs and now has some but not `*` |
| Claims.AnotherReasonNarrowsADefault | internal/capiexports/capiexports.go:566-573 | a claim that may watch, and no longer may once another reason is added |
| Claims.MissingIdentities | internal/capiexports/capiexports.go:653-662 | exactly the named exports without a known identity, in order |
| ClaimController.Discover | internal/capiexports/discovery.go:100-128 | whatever the listing order, the labelled and identified exports, in name order |
| ClaimController.DiscoveryMeaning | internal/capiexports/discovery.go:86-124 | whatever is discovered is an export labelled with one of the four contracts and given an identity by the server, with that contract and identity and exactly the resources it publishes |
| ClaimController.EveryProviderIsDiscovered | internal/capiexports/discovery.go:86-124 | and every such export is |
| ClaimController.Identities | internal/capiexports/discovery.go:132-138 | the identity of each discovered export |
| ClaimController.Server.SetClaims | internal/capiexports/capiexports.go:787-800 | only the named export's claim list changes, and only when it differs |
| ClaimController.Server.ReconcileClaims | internal/capiexports/discovery.go:158-176 | one pass over the providers, from what was discovered before anything was written |
| ClaimController.PassOverlays | internal/capiexports/discovery.go:165-175 | when the named exports exist and no two wants for one differ, a pass leaves each named export with its claims and everything else as it was |
| ClaimController.PassReports | internal/capiexports/discovery.go:165-175 | with distinct, existing names it reports exactly the exports whose claims it found to differ, in order |
| ClaimController.DifferingMeaning | internal/capiexports/capiexports.go:787-800 | those are the wanted exports that exist with other claims |
| ClaimController.PassFailsOnAbsence | internal/capiexports/discovery.go:167-170 | a pass fails exactly when some wanted export is missing |
| ClaimController.QuietExactlyWhen | internal/capiexports/capiexports.go:787-800 | a pass succeeds and writes nothing exactly when every named export is there with its claims |
| ClaimController.PassChangesOnlyClaims | internal/capiexports/discovery.go:144-157 | whatever is wanted, and whether or not it succeeds, a pass changes nothing but claim lists |
| ClaimController.PassEndsAtFirstAbsent | internal/capiexports/discovery.go:167-170 | it ends at the first that is, with the store and the report of the pass over those before it |
| ClaimController.DiscoveryIgnoresClaims | internal/capiexports/discovery.go:100-128 | claims never feed discovery |
| ClaimController.ReconcileReachesAFixpoint | internal/capiexports/discovery.go:155-157 | a pass changes nothing but claims and leaves every want as it was; the next one succeeds and writes nothing exactly when every named export exists and no two providers want different claims of one |
| ClaimController.ReconciledClaims | internal/capiexports/discovery.go:144-176 | after a successful pass over wants that do not conflict, each provider's export carries claims that grant exactly the verbs asked for, on the server, by its core claims, by the identified exports it names, and of the contracts of the other provider exports that publish the resource; or every verb when none or `*` is |
| ClaimController.AskedIsClaimed | internal/capiexports/discovery.go:144-176 | and whatever is so asked for is claimed |
| ClaimController.ConflictingWantsAreRewritten | internal/capiexports/discovery.go:155-175 | two different wants for one export, which every pass rewrites twice |
| ClaimController.ReconcileIsSelfStabilising | internal/capiexports/discovery.go:144-157 | when no two providers want different claims of one export, from any prior claim lists and in any provider order one successful pass reaches the same state |
| ClaimController.EmptyIdentityIsCore | internal/capiexports/capiexports.go:511-514 | a claim without an identity is one of the core claims |
| ClaimController.NoClaimOnOneself | internal/capiexports/capiexports.go:550-556 | with distinct identities an export that does not name itself claims nothing under its own identity |
| ClaimController.AnotherExportNarrowsNothing | internal/capiexports/discovery.go:148-152 | if every contributing verb list says something, publishing another export drops no claim and narrows none |
| Roles.APIGroups | internal/capiworkspaces/roles.go:142-157 | the Cluster API groups served, each once, in order |
| Roles.ClusterApiMeaning | internal/capiworkspaces/roles.go:142-157 | a Cluster API group is `cluster.x-k8s.io` or anything that ends in a dot and that |
| Roles.OnClusterApiGroups | internal/capiworkspaces/roles.go:166-253 | on a Cluster API group admin grants reads of what is served and writes of `cluster.x-k8s.io/clusters` alone, once something is served; view grants exactly the reads |
| Roles.AdminMeaning | internal/capiworkspaces/roles.go:181-243 | everything the admin role grants in any group |
| Roles.ViewMeaning | internal/capiworkspaces/roles.go:214-250 | everything the view role grants in any group |
| Roles.ViewNeverSeesSecrets | internal/capiworkspaces/roles.go:75-78 | view grants nothing on core secrets |
| Roles.ViewIsWithinAdmin | internal/capiworkspaces/roles.go:217-219 | whatever view grants, admin grants |
| Roles.GrantsAreMonotone | internal/capiworkspaces/roles.go:226-250 | serving more takes no grant away |
| Roles.RolesIgnoreOrder | internal/capiworkspaces/roles.go:159-166 | the roles depend only on which groups are served |
| Initializer.Client.ApplyRole | internal/capiworkspaces/reconcile.go:78-114 | the one role is created, rewritten, left alone or refused, as the old state and a racing creator decide |
| Initializer.AppliedMeaning | internal/capiworkspaces/reconcile.go:72-114 | refused exactly for an unmanaged role, which is left as it was; otherwise right afterwards exactly when no stranger won the race; silent exactly when already right; other roles and other labels are kept |
| Initializer.Client.ReconcileRoles | internal/capiworkspaces/reconcile.go:44-61 | the two roles in turn, up to the first that is refused, from the groups the listed bindings serve |
| Initializer.PassRefusal | internal/capiworkspaces/reconcile.go:50-58 | a pass is refused exactly when one of its names is somebody else's |
| Initializer.PassLeavesOthers | internal/capiworkspaces/reconcile.go:72-77 | no pass touches an unmanaged role or one outside its names |
| Initializer.PassRightens | internal/capiworkspaces/reconcile.go:33-35 | after a pass that was not refused each role is managed and has the wanted rules, exactly when no stranger won |
| Initializer.RepeatingWritesNothing | internal/capiworkspaces/reconcile.go:40-43 | repeating ReconcileRoles, whether or not it was refused and whoever races it, writes exactly when a peer with other rules won the first role, or won the second while the first was free or managed and went to no stranger |
| Initializer.RepeatingWrites | internal/capiworkspaces/reconcile.go:40-43 | for any list of managed roles with distinct names, a repeat is silent exactly when each role that went to a peer with other rules, and that no unmanaged role preceded, was preceded by one that went to a stranger |
| Initializer.SilentRepeat | internal/capiworkspaces/reconcile.go:40-43 | a repeat that writes nothing changes nothing, and is refused exactly when the first was or a stranger won a race |
| Initializer.PassIsSilentWhenRight | internal/capiworkspaces/reconcile.go:40-43 | where every role is right already, a pass changes and writes nothing |
| Initializer.PeersOtherRulesAreRewritten | internal/capiworkspaces/reconcile.go:84-88 | a lost race after which the repeat writes |
| Initializer.Client.NudgeUnappliedClaims | internal/capiworkspaces/initializer.go:192-225 | exactly the bindings that have stopped short and have retries left are written, in whatever order they are listed |
| Initializer.Client.InitializeWorkspace | internal/capiworkspaces/initializer.go:94-149 | one reconcile: the whole new state of the workspace, and whether it is requeued or failed |
| Initializer.ReconcileMeaning | internal/capiworkspaces/initializer.go:94-149 | when a reconcile is done, waits, fails or releases; it gives up its own hold alone, on release alone, changes roles only past the wait and bindings only during it |
| Initializer.RolesAfterReconcile | internal/capiworkspaces/initializer.go:133-138 | released or failed, the roles are those that one pass leaves |
| Initializer.NudgedExactlyWhen | internal/capiworkspaces/initializer.go:192-243 | a binding is written exactly while the workspace waits, when it is `Bound`, has claims left to apply and was retried fewer than twelve times |
| Initializer.OthersKeepHolding | internal/capiworkspaces/initializer.go:140-146 | in every run another controller's initializer stays until somebody else takes it away |
| Initializer.ReleaseMeaning | internal/capiworkspaces/initializer.go:108-143 | a workspace is released exactly when it is held, kcp's binding initializer is gone, and both role names are free or ours |
| Initializer.ReleasedRolesAreRight | internal/capiworkspaces/initializer.go:88-93 | released with both roles right exactly when no stranger won a race |
| Initializer.ReleasedRolesGrant | internal/capiworkspaces/initializer.go:88-93 | a workspace released with no stranger in the way has both roles under their names, managed, granting exactly what the groups its bindings serve call for |
| Initializer.StrangerIsTakenForAPeer | internal/capiworkspaces/reconcile.go:84-88 | a workspace released without its admin role |
| Initializer.OnlyReleasedRightly | internal/capiworkspaces/initializer.go:88-149 | in every run of reconciles and of anything else kcp and the tenants do, a workspace no longer held was released by a reconcile that saw the binding initializer gone and left both roles right, given that no stranger won a race to create one |
| Initializer.StrangersRoleBlocks | internal/capiworkspaces/reconcile.go:93-96 | while a stranger's role sits under one of the names the workspace is never released and no reconcile changes that role |
| Initializer.NudgeCounts | internal/capiworkspaces/initializer.go:212-221 | a nudge raises the counter by one and changes no other annotation |
| Initializer.NudgesAreBounded | internal/capiworkspaces/initializer.go:155-160 | in every run the counter counts the nudges of a binding, which are no more than were left at the start |
| Initializer.AtMostTwelveNudges | internal/capiworkspaces/initializer.go:155-160 | a binding whose counter is absent is nudged at most twelve times, as long as it stays and nobody else writes its counter |
| Decimal.AtoiReadsItoa | internal/capiworkspaces/initializer.go:217-221 | every 64-bit counter written is read back |
| Decimal.AtoiMeaning | internal/capiworkspaces/initializer.go:213-216 | a numeral, signed or not, reads as the nearest 64-bit integer; anything else as zero |
| Decimal.DigitsInjective | internal/demo/users.go:140-150 | different numbers give different numerals |
| Telemetry.Recorder.constructor | internal/workspacetelemetry/telemetry.go:81-99 | empty, with the limits given or their defaults |
| Telemetry.Recorder.Engaged | internal/workspacetelemetry/telemetry.go:102-107 | the workspace is engaged and tracked |
| Telemetry.Recorder.Disengaged | internal/workspacetelemetry/telemetry.go:114-123 | nothing of the workspace is kept, its series is released if it had one, and its load moves to the departed |
| Telemetry.Recorder.EngagementFailed | internal/workspacetelemetry/telemetry.go:129-139 | the failure is always counted, its reason only while there is room |
| Telemetry.Recorder.RecordReconcile | internal/workspacetelemetry/telemetry.go:142-147 | one more reconcile in total and for the workspace |
| Telemetry.Recorder.TakeSnapshot | internal/workspacetelemetry/telemetry.go:164-213 | exactly the busiest are exported by name; every series that dropped out is released; the remainder is the load of the rest and of the departed; the invariant keeps series opened = released + exported, total = tracked + departed, and reasons within their cap and the failure total |
| Telemetry.TopIsUnique | internal/workspacetelemetry/telemetry.go:168-178 | the exported set is determined by the loads, ties broken by name |
| Telemetry.TopOf | internal/workspacetelemetry/telemetry.go:168-184 | the head of the ranking: every workspace in it ranks ahead of every other |
| Telemetry.TopMeaning | internal/workspacetelemetry/telemetry.go:164-184 | as many are exported as there is room for, each busier than every one left out, or as busy and earlier by name |
| Telemetry.Remainder | internal/workspacetelemetry/telemetry.go:197-208 | tracked load is exported load plus the rest, so the subtraction never underflows |
| Telemetry.KeptMeaning | internal/workspacetelemetry/telemetry.go:102-123 | over any calls, engaged are exactly the workspaces engaged and not disengaged since; tracked are exactly those engaged, or counted a reconcile, and not disengaged since |
| Telemetry.LoadMeaning | internal/workspacetelemetry/telemetry.go:114-147 | what is counted for a workspace is its reconciles since it was last disengaged |
| Telemetry.TrackedAreEngagedExactlyWhen | internal/workspacetelemetry/telemetry.go:56-60 | counters are kept for exactly the engaged workspaces when and only when every workspace with a reconcile since it was last disengaged was also engaged since |
| Telemetry.AlwaysEngagedExactlyWhen | internal/workspacetelemetry/telemetry.go:56-60 | and throughout a history when and only when each reconcile is of a workspace engaged at the time |
| Telemetry.LateReconcileIsKept | internal/workspacetelemetry/telemetry.go:109-123 | a reconcile after the disengagement of its workspace is kept, whatever else happens, until the workspace is disengaged again |
| Telemetry.CounterOutlivesItsWorkspace | internal/workspacetelemetry/telemetry.go:109-123 | three calls after which a workspace is tracked and not engaged |
| ChangeWriter.Writer.Write | internal/workloaddiag/changewriter.go:50-64 | however the stream is chunked, the buffer holds the tail after the last newline and what was emitted is the report of the whole stream |
| ChangeWriter.Writer.Record | internal/workloaddiag/changewriter.go:66-73 | one line is trimmed, and passed on unless blank or seen |
| ChangeWriter.TrimRightMeaning | internal/workloaddiag/changewriter.go:67 | what is kept of a line is its longest beginning that does not end in CR or LF |
| ChangeWriter.BlankMeaning | internal/workloaddiag/changewriter.go:68-70 | dropped are exactly the lines that spell Unicode white space and nothing else, in UTF-8 |
| ChangeWriter.ReportMeaning | internal/workloaddiag/changewriter.go:66-73 | passed on are exactly the trimmed lines of the stream that are not blank |
| ChangeWriter.LinesAppend | internal/workloaddiag/changewriter.go:31-32 | the lines of a longer stream are those of its beginning and of what its tail continues to |
| ChangeWriter.LinesDecompose | internal/workloaddiag/changewriter.go:53-62 | a stream is its lines, each ending in its only newline, followed by a tail without one |
| ChangeWriter.LinesOfJoined | internal/workloaddiag/changewriter.go:53-62 | and any such decomposition is the one read |
| ChangeWriter.DistinctMeaning | internal/workloaddiag/changewriter.go:25-28 | each line once, none missing, in order of first appearance |
| ChangeWriter.ChunkingDoesNotMatter | internal/workloaddiag/changewriter.go:34-49 | any sequence of writes leaves the state that their concatenation determines |
| Planning.ValidateUsers | internal/demo/users.go:169-187 | the first user that cannot have a home, with what is wrong, or none |
| Planning.ValidMeaning | internal/demo/users.go:162-168 | accepted users are exactly distinct labels that spell no reserved owner |
| Planning.LabelMeaning | internal/demo/users.go:162-187 | a label is one to 63 lower-case letters, digits and hyphens, with no hyphen at either end |
| Planning.PlanWorkspaces | internal/demo/users.go:136-160 | the plan of every workspace, dealt round the users |
| Planning.EachGetsTheirShare | internal/demo/users.go:128-135 | user j of n gets exactly (m - j) / n rounded up of m workspaces, numbered from one, in order, inside their own home |
| Planning.UnownedPlans | internal/demo/users.go:138-146 | without users, every workspace is a child of the parent, numbered from one, and nobody's |
| Planning.PathsAreNested | internal/demo/users.go:112-126 | the org lies below the parent and is called by the prefix; a home lies below the org and is called by its user |
| Planning.PathsAreDistinct | internal/demo/users.go:136-160 | no two planned workspaces share a path |
| Planning.TenantEntries | internal/demo/kubeconfig.go:122-130 | a tenant's home and the workspaces they own, in order |
| Planning.TenantReachesTheirOwn | internal/demo/kubeconfig.go:122-130 | a tenant's file reaches their home and each workspace planned for them, as them, and nothing else |
| Planning.TenantsAreSeparate | internal/demo/kubeconfig.go:113-130 | everything in a tenant's file is browsed as them and lies in their home; nothing in it addresses anything at or below another tenant's |
| Planning.EveryWorkspaceIsReachable | internal/demo/kubeconfig.go:122-130 | every planned workspace is among its owner's |
| Planning.OperatorEntries | internal/demo/kubeconfig.go:89-111 | every path of the tree once, top down, none empty |
| Planning.OperatorReachesEverything | internal/demo/kubeconfig.go:89-111 | the operator's file reaches the parent, the org, every home and every planned workspace that has a path, as nobody, and nothing else |
| Planning.WorkspaceKubeconfigs | internal/demo/kubeconfig.go:76-86 | the operator's file and one for each tenant |
| Planning.FilesAreDistinctExactlyWhen | internal/demo/kubeconfig.go:76-86 | no two files share a name exactly when no user is called `workspaces` |
| Planning.OperatorsNameIsAccepted | internal/demo/users.go:178-180 | the validation accepts a user of that name |
| Planning.OperatorAddressesTheRunExactlyWhen | internal/demo/kubeconfig.go:89-111 | the operator's file addresses only workspaces of the run exactly when the run has users or the org path is empty |

## Left out

- Floating-point rounding, overflow and infinities other than those the source tests for: arithmetic is over reals.
- 64-bit wrap-around of the telemetry counters and of the differences in sort comparators: counts are unbounded.
- API errors, update conflicts and timeouts: a read or write of the modelled server succeeds or fails only as the source's own branches say.
- Initializer.Client.InitializeWorkspace: does not model writes by others between its own reads and writes, because a reconcile is one step of a run; the one such interleaving the source handles, a role created in between, is an input.
- Telemetry calls made from the wiring: the recorder is modelled over any order of calls; which orders the wiring gives rise to is not, and under races the recorder need not mirror the map.
- What a setup function or a runnable does; the wiring protocol lets any setup fail, any runnable return at any time, and any context be cancelled.
- Liveness of the wiring: `stop` waits for runnables, and nothing here says that a runnable returns.
- `PlanWorkspaces` for a negative number of workspaces, where the source panics; `FindDeparture` for a single point with a minimum of one, where it indexes past the end.
- The text of errors and reasons, all rendering, JSON and file writing.
- `SweepRun.Validate` is modelled as one condition; which of its errors are joined is not.
- kcp's `Path.Join` and `EnsureInitializerAbsent`, the RBAC evaluation rule, and Go's `strconv`, `slices` and `strings` are modelled from their documented behaviour; their code is not part of this model. Subresource wildcards of RBAC do not occur in the modelled rules.
- Query strings are given as the two parameters that are read; parsing them is not modelled.
- `workspaceServer`, the copying of credentials, and the access checks of `internal/demo`: single string and boolean expressions.
- `InPhase`, `Goroutines`, `Heap`, `Counts.Clone` and `Retained`: projections that would add only easy members.
- Process sampling and settling, the wait for identities, and `Publish`: clocks and polling.
