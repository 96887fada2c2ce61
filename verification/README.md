# Verified model of the detection pipeline

This project models the algorithms that a multi-camera detection server depends on, and proves what they are for.
To verify: `dafny verify dfyconfig.toml`.

**Assignment and tracking.** `Grid`, `Matching`, `Assignment`, `Tableau`, `Buffers` and `Hungarian` model the Munkres
solver on its flat column-major buffers, with its steps calling each other as in the source. Ghost potentials, ghost
times on primes and a lexicographic measure carry the proof that the recursion ends in an assignment whose cost is
within `min(rows, cols) * eps` of the optimum, for either shape. `Tracks` states the SORT tracker's calls on values and
proves conservation of detections, ids and streaks over whole runs, `TrackLife` what each call does to each tracker
and exactly which it must report, `TrackIds` what the reset of the id counter and the class of a tracker change;
`SortTracker` is the tracker on objects, proved against it and against the solver's contract.

**Geometry and events.** `Geometry` proves the integer segment test exact, its direction the side on which a step
ends, and the polygon test the even-odd rule over real points of the edges, invariant under rotation, reversal and
cutting; `Polygon` reduces it to triangles. `Events` states the event checkers of a schedule on values, with the
spacing of events and the exact condition under which a parked car can be reported. `Sightings`, `LineReports`,
`ZoneReports` and `ParkingReports` say, in terms of the calls of a run alone, exactly which objects a call reports and
with which number; `Schedule` is the checkers on histories updated in place.

**Service graph.** `ServiceGraph` builds the graph and runs Kahn's algorithm, which lists exactly the blocks no cycle
leads to.

**Boxes.** `Letterbox` covers scale, padding, the filled rectangles and the coordinate conversion with its round trip.
`Suppression` covers the per-class greedy suppression over the sorted index array, `Overlap` what its measure means.

**Inference pipeline.** `SafeQueues` is the bounded queue. `HandlerLine` states one engine handler as a machine of
worker, closer and requesters; `EngineHandler` is its loop on the queues, with when a request is answered. `ReplySide`
is the dispatcher with the result queues, and `Drops` says when it drops a reply. `Pipeline` interleaves any number of
client threads with all handlers and the dispatcher; `CameraOrder` says in which order a unit gets its replies,
`Subscription` when a subscribed unit has a queue, `RoundRobin` and `Fairness` how handlers are chosen. `LoadBalancer`
is the balancer on objects, and `BalancerSteps` shows that its calls are steps of the pipeline.

Some statements one might expect are false of the code, and the model says exactly when they hold:

- Replies of a handler can come out of request order: when Preprocess throws while a batch waits, or when the closer
  answers while the worker still owes replies. `HandlerLines.RepliesInOrder`, `PreprocessFailureOvertakes` and
  `CloserOvertakes`.
- A camera can get the replies of an orderly handler out of order when its result queue is replaced while several
  callers take from it: exactly when a later delivery comes out of an older queue. `CameraOrders.CameraOrder`,
  `UnitOrder` and `CameraOrderLost`.
- A batch that is not full when the handler stops, and a request that arrives after the closer emptied the queue, are
  never answered. `HandlerLines.ClosedAccounts` and `LateRequestStays`.
- The round robin is fair in every window exactly when the number of handlers divides 2^64. `RoundRobin.FairExactly`.
- The limit of 128 waiting requests can be exceeded by the number of client threads less one, and no more.
  `Pipelines.QueueBound` and `BoundIsMet`.
- A unit can end up subscribed without a result queue, exactly when it subscribes between the two halves of a removal.
  `Subscriptions.SubscriptionKept` and `OverlapCanStrand`.
- The parking checker never refreshes its histories, so it reports only if the required duration is below 120 s plus
  the time between its clock reads. `Events.ParkingReportsExactly`.
- Live track ids can meet after the reset of the counter, exactly when an id in use is issued again.
  `TrackIds.ListedDistinct` and `IdsMeetAfterReset`.
- `Update` of the letterbox can succeed with unfit styles, exactly when it repeats sizes whose last call left
  them unfit.
  `Letterbox.FrameFormattingContext.Update` and `RepeatedAfterFailure`.

Where comments and code differ the model follows the code: a crossing reports the direction value of the enumeration,
not the numbering in the comment of `MgenSchedule.cpp:142`, and the parking checker drops a history by its age
although the comment calls the limit an inactivity time. A detection handed to a tracker of another class neither
updates it nor starts a new one, as in the source (`TrackIds.DetectionUsed`).

## Model

| member | source | states |
|---|---|---|
| Hungarian.HungarianSolver.Solve | code/Tracker/SORT/MgenHungarian.cpp:64-94 | For every cost matrix of either shape (as long as it fits the buffers) the result assigns every line of the smaller side to a different line of the larger one and leaves the rest at -1, and its total cost is below that of any other such assignment plus min(rows, cols) * eps |
| Assignment.NearOptimal | code/Tracker/SORT/MgenHungarian.cpp:99-216 | Potentials that bound every cost from below, reduced costs below eps on the chosen cells, and non-positive potentials on the larger side that are zero on unchosen lines make a complete assignment better than any other up to min(rows, cols) * eps |
| Assignment.DualBound | code/Tracker/SORT/MgenHungarian.cpp:135-193 | Any complete assignment costs at least the sum of the potentials, for both shapes |
| Assignment.TightCost | code/Tracker/SORT/MgenHungarian.cpp:163-204 | A complete assignment on cells of reduced cost below eps costs less than the sum of the potentials plus min(rows, cols) * eps |
| Hungarian.HungarianSolver.AssignmentOptimal | code/Tracker/SORT/MgenHungarian.cpp:99-216 | After the preliminary steps and the mutual recursion every line of the smaller side has a star, the assignment array lists the stars, and the working matrix is the cost matrix minus potentials with all stars below eps |
| Hungarian.HungarianSolver.Reset | code/Tracker/SORT/MgenHungarian.cpp:115-133 | Working copy equal to the input, all covers, stars and primes cleared, assignment all -1 |
| Hungarian.HungarianSolver.ReduceRows | code/Tracker/SORT/MgenHungarian.cpp:139-158 | Subtracting each row's smallest cost leaves non-negative costs that are the input minus potentials |
| Hungarian.HungarianSolver.ReduceColumns | code/Tracker/SORT/MgenHungarian.cpp:176-193 | The same for columns when there are more rows than columns, with all row potentials zero |
| Hungarian.HungarianSolver.RowMinimum | code/Tracker/SORT/MgenHungarian.cpp:140-150 | The smallest entry of a row of the column-major buffer |
| Hungarian.HungarianSolver.ColumnMinimum | code/Tracker/SORT/MgenHungarian.cpp:177-187 | The smallest entry of a column of the buffer |
| Hungarian.HungarianSolver.StarByRows | code/Tracker/SORT/MgenHungarian.cpp:161-169 | The stars form a matching on near-zeros whose columns are exactly the covered ones |
| Hungarian.HungarianSolver.StarByColumns | code/Tracker/SORT/MgenHungarian.cpp:196-208 | The same starting from the columns, and the row covers used on the way are taken back |
| Hungarian.HungarianSolver.BuildAssignmentVector | code/Tracker/SORT/MgenHungarian.cpp:220-229 | Row r gets the column of its star, and stays -1 without one |
| Hungarian.HungarianSolver.Step2a | code/Tracker/SORT/MgenHungarian.cpp:232-250 | From a matching without primes and covered rows the recursion ends with every line of the smaller side starred; terminates by (missing stars, uncovered starred rows, open zero) |
| Hungarian.HungarianSolver.Step2b | code/Tracker/SORT/MgenHungarian.cpp:253-272 | Finishes exactly when the covered columns number the smaller side, else searches on with strictly smaller measure |
| Hungarian.HungarianSolver.Step3 | code/Tracker/SORT/MgenHungarian.cpp:275-313 | Keeps the tableau invariant, goes to step 4 with a primed row without star and to step 5 only when no uncovered near-zero is left, and terminates |
| Hungarian.HungarianSolver.Step4 | code/Tracker/SORT/MgenHungarian.cpp:317-370 | Entered with a freshly primed unstarred row, adds one star and ends in a solved tableau |
| Hungarian.HungarianSolver.Step5 | code/Tracker/SORT/MgenHungarian.cpp:373-405 | Entered only when every uncovered entry is at least eps; the shift opens a near-zero, which makes the measure smaller |
| Hungarian.HungarianSolver.CoverStarredColumns | code/Tracker/SORT/MgenHungarian.cpp:236-247 | Exactly the columns with a star join the covered ones |
| Hungarian.HungarianSolver.CountCoveredColumns | code/Tracker/SORT/MgenHungarian.cpp:258-262 | The number of covered columns |
| Hungarian.HungarianSolver.SearchZero | code/Tracker/SORT/MgenHungarian.cpp:282-310 | The whole search of step 3: either a primed near-zero in an uncovered row without star, or no uncovered near-zero anywhere |
| Hungarian.HungarianSolver.SweepColumns | code/Tracker/SORT/MgenHungarian.cpp:285-309 | One sweep over the columns keeps the invariant and either finds such a row, or reports whether it traded covers |
| Hungarian.HungarianSolver.FirstOpenZero | code/Tracker/SORT/MgenHungarian.cpp:287-288 | The first uncovered row with a near-zero in a column, or none when the column has none |
| Hungarian.HungarianSolver.MarkZero | code/Tracker/SORT/MgenHungarian.cpp:290-296 | Exactly one prime more, and the column of the star in its row, or the number of columns without one |
| Hungarian.HungarianSolver.PrimeZero | code/Tracker/SORT/MgenHungarian.cpp:290-296 | Primes the zero; without a star in its row that is an entry of step 4, with one the invariant of the search holds again with one prime more |
| Hungarian.HungarianSolver.TradeCover | code/Tracker/SORT/MgenHungarian.cpp:303-307 | Covers the row and uncovers the column of its star, nothing else |
| Tableaux.MarkPrimeKeeps | code/Tracker/SORT/MgenHungarian.cpp:290-291 | Priming an uncovered near-zero keeps potentials, stars, covers and the time order of primes |
| Tableaux.CoverRowKeeps | code/Tracker/SORT/MgenHungarian.cpp:303-305 | Trading the star's column for its row keeps: each star has exactly one of its two lines covered, only starred lines are covered, primed rows are the covered ones |
| Tableaux.AugmentingEntry | code/Tracker/SORT/MgenHungarian.cpp:298-301 | A primed zero in a row without star is a valid entry of step 4 |
| Tableaux.OpenCell | code/Tracker/SORT/MgenHungarian.cpp:380-389 | As long as a line of the smaller side has no star, some cell is uncovered, so step 5 takes the minimum of a non-empty set |
| Hungarian.HungarianSolver.SmallestOpen | code/Tracker/SORT/MgenHungarian.cpp:380-389 | The smallest uncovered entry, with a cell where it is found |
| Hungarian.HungarianSolver.AddToCoveredRows | code/Tracker/SORT/MgenHungarian.cpp:391-395 | Exactly the covered rows grow by h |
| Hungarian.HungarianSolver.SubtractFromOpenColumns | code/Tracker/SORT/MgenHungarian.cpp:397-401 | Exactly the uncovered columns shrink by h |
| Hungarian.HungarianSolver.ShiftCosts | code/Tracker/SORT/MgenHungarian.cpp:380-401 | The two in-place shifts together are the dual step of ShiftKeeps, and the minimum cell is now zero and open |
| Tableaux.ShiftReduced | code/Tracker/SORT/MgenHungarian.cpp:391-401 | After the shift all entries are still non-negative and still the input minus (shifted) potentials |
| Tableaux.ShiftSigned | code/Tracker/SORT/MgenHungarian.cpp:391-401 | On the larger side potentials stay non-positive and zero on lines without a star, in both shapes |
| Tableaux.ShiftKeeps | code/Tracker/SORT/MgenHungarian.cpp:373-405 | Step 5 keeps the whole tableau invariant, stars and primes included, and opens a zero |
| Tableaux.PathDescends | code/Tracker/SORT/MgenHungarian.cpp:337-357 | Along the alternating path of step 4 prime times strictly decrease, so no row is visited twice |
| Tableaux.PathStep | code/Tracker/SORT/MgenHungarian.cpp:339-356 | A star found in the last column is in a primed row, so the loop always finds its prime, and the path extends |
| Tableaux.RebuiltInjective | code/Tracker/SORT/MgenHungarian.cpp:324-363 | The stars after the flip form a matching |
| Tableaux.RebuiltColumns | code/Tracker/SORT/MgenHungarian.cpp:324-363 | Every column starred before is starred after, and one column more |
| Tableaux.PathEnd | code/Tracker/SORT/MgenHungarian.cpp:317-370 | The flip adds exactly one star, keeps all starred rows and columns, and gives a valid entry of step 2a |
| Hungarian.HungarianSolver.StartPath | code/Tracker/SORT/MgenHungarian.cpp:324-335 | The copy holds the old stars and the new one |
| Hungarian.HungarianSolver.MoveStar | code/Tracker/SORT/MgenHungarian.cpp:339-353 | One turn: the star of a row moves to the row's prime |
| Hungarian.HungarianSolver.RebuildStars | code/Tracker/SORT/MgenHungarian.cpp:324-357 | The in-place loop computes exactly the stars rebuilt along an alternating path that ends, and ends |
| Hungarian.HungarianSolver.CommitStars | code/Tracker/SORT/MgenHungarian.cpp:359-366 | The copy becomes the stars; primes and row covers are cleared |
| Hungarian.HungarianSolver.AugmentStars | code/Tracker/SORT/MgenHungarian.cpp:324-366 | From an entry of step 4 to an entry of step 2a with one star more |
| Tableaux.SolvedAssignment | code/Tracker/SORT/MgenHungarian.cpp:220-229 | The stars of a solved tableau listed by row are a complete assignment that meets the premises of NearOptimal |
| Hungarian.HungarianSolver.FillIn | code/Tracker/SORT/MgenHungarian.cpp:83-85 | Entry (i, j) goes to offset i + rows * j |
| Grid.OffsetInjective | code/Tracker/SORT/MgenHungarian.cpp:77-85 | Different cells of the matrix have different offsets in the flat buffer |
| Grid.MarkedPut | code/Tracker/SORT/MgenHungarian.cpp:291-305 | Writing one flag at a cell's offset changes that cell of the marked set and no other |
| Grid.AtPut | code/Tracker/SORT/MgenHungarian.cpp:394-401 | Writing one cost at a cell's offset changes that cell and no other |
| Matching.MatchingSize | code/Tracker/SORT/MgenHungarian.cpp:258-264 | A matching uses as many columns as it has stars, so counting covered columns counts stars |
| Matching.StarPut | code/Tracker/SORT/MgenHungarian.cpp:347-350 | Moving a row's star to a free column keeps the matching |
| SortTracking.SORTTracker.TrackObjects | code/Tracker/SORT/SORTTracker.cpp:42-208 | Each call moves the tracker objects exactly as the value-level relation Tracks.Step says: initialise, predict and erase, solve, split, update, spawn, report, age, reset the counter |
| SortTracking.SORTTracker.Initialize | code/Tracker/SORT/SORTTracker.cpp:54-69 | With no trackers every detection starts one, with consecutive ids |
| SortTracking.SORTTracker.PredictAll | code/Tracker/SORT/SORTTracker.cpp:71-86 | After predict and erase, kalmans[i] is the tracker that produced predictedBoxes[i], for every i |
| SortTracking.SORTTracker.EraseOverAge | code/Tracker/SORT/SORTTracker.cpp:101-109 | Exactly the trackers over age are erased, in order |
| SortTracking.SORTTracker.BuildCosts | code/Tracker/SORT/SORTTracker.cpp:115-120 | Cost (i, j) is 1 minus the overlap of predicted box i and detection j |
| SortTracking.SORTTracker.Assign | code/Tracker/SORT/SORTTracker.cpp:115-123 | The solver's near-optimality and completeness, on the costs of the surviving trackers |
| SortTracking.Split | code/Tracker/SORT/SORTTracker.cpp:125-157 | Pairs are the assigned rows within the threshold; the unmatched set is exactly the detections no pair takes, for more detections than trackers and for no more |
| SortTracking.SplitCovers | code/Tracker/SORT/SORTTracker.cpp:126-157 | Set difference plus refused assignments are together exactly the detections not taken, in both shapes |
| SortTracking.EveryColumn | code/Tracker/SORT/SORTTracker.cpp:126-146 | With no more detections than trackers the solver assigns all of them, so the branch without set difference misses none |
| SortTracking.SORTTracker.UpdatePaired | code/Tracker/SORT/SORTTracker.cpp:159-160 | Every paired tracker is updated with its detection once, no other tracker changes |
| SortTracking.SORTTracker.SpawnLeftover | code/Tracker/SORT/SORTTracker.cpp:162-174 | New trackers for the detections left over, in order, with consecutive ids |
| SortTracking.SORTTracker.HandOut | code/Tracker/SORT/SORTTracker.cpp:125-174 | The trackers after update and spawn are those of the specification |
| SortTracking.SORTTracker.ReportAndAge | code/Tracker/SORT/SORTTracker.cpp:176-188 | One pass reports the detected trackers in order and erases those over age |
| SortTracking.SORTTracker.MatchAndReport | code/Tracker/SORT/SORTTracker.cpp:115-196 | The part of a call that reaches the solver, as the specification says |
| Tracks.Conservation | code/Tracker/SORT/SORTTracker.cpp:125-174 | Each detection is taken by exactly one tracker within the threshold or starts exactly one new tracker, never both and never neither |
| Tracks.LeftoverExact | code/Tracker/SORT/SORTTracker.cpp:126-157 | The list of leftover detections holds exactly those not taken, each once, in order |
| Tracks.ReportsAtMostDetections | code/Tracker/SORT/SORTTracker.cpp:176-188 | A call reports at most as many tracks as it was given detections |
| Tracks.StepIds | code/Tracker/SORT/SORTTracker.cpp:42-196 | Below the reset, one call keeps ids distinct, issues only new ones, and reports distinct ids |
| Tracks.RunIds | code/Tracker/SORT/SORTTracker.cpp:42-196 | Over every run up to the reset of the counter live ids are distinct and an id that is gone never comes back |
| TrackIds.ListedDistinct | code/Tracker/SORT/SORTTracker.cpp:162-174 | Without any bound on the counter: the trackers of a matching call have different ids if and only if none of those it starts gets an id that a surviving tracker has |
| TrackIds.RunDistinct | code/Tracker/SORT/SORTTracker.cpp:162-194 | Over every run, resets and wrap-around included, live ids are distinct as long as no call issues an id in use |
| TrackIds.IdsMeetAfterReset | code/Tracker/SORT/SORTTracker.cpp:190-194 | For every reset threshold, the source's too, a run in which a tracker that outlives the reset shares its id with one started after it |
| TrackIds.DetectionUsed | code/Tracker/SORT/SORTTracker.cpp:148-174 | A detection updates exactly one tracker or starts exactly one if and only if the tracker it is handed to has its class; otherwise neither |
| TrackIds.OneClassUsesAll | code/Main/DETECTOR/src/RtspDetectorUnit.cpp:1524-1541 | In every run with detections of one class only, as the detector unit groups them, every detection of a matching call updates a tracker or starts one |
| Tracks.StepCounters | code/Tracker/SORT/SORTTracker.cpp:74-188 | One call leaves no tracker over age and keeps the meaning of the counters |
| Tracks.RunCounters | code/Tracker/SORT/SORTTracker.cpp:42-196 | In every state of every run no tracker is over age and every hit streak means what Faithful says |
| Tracks.ReportsMean | code/Tracker/SORT/SORTTracker.cpp:179-182 | A reported track is alive, was updated or born in this call and, after warm-up, was updated in each of its last min_hits rounds |
| Tracks.RunMeans | code/Tracker/SORT/MgenKalman.cpp:218-224 | A trailing run has at least k updates if and only if the last k rounds were all updates |
| Tracks.PredictFaithful | code/Tracker/SORT/MgenKalman.cpp:33-47 | Predict keeps: the streak is the trailing run of updated rounds whenever time_since_update is 0 |
| Tracks.UpdateFaithful | code/Tracker/SORT/MgenKalman.cpp:50-79 | Update keeps it, and an update of another class changes nothing |
| TrackLives.SurvivorsAt | code/Tracker/SORT/SORTTracker.cpp:71-86 | After prediction exactly the trackers whose predicted box is in the frame go on, in order, each one round older |
| TrackLives.CorrectedExactly | code/Tracker/SORT/SORTTracker.cpp:148-160 | In a matching call exactly the trackers whose chosen detection overlaps by at least 1 - threshold and has their class are corrected, with that detection, and count the round as updated; the others stay as predicted |
| TrackLives.StartedExactly | code/Tracker/SORT/SORTTracker.cpp:162-174 | Exactly the detections that no tracker is given start a tracker, in order, with their own box, class and the next ids |
| TrackLives.KeptExactly | code/Tracker/SORT/SORTTracker.cpp:176-194 | After a matching call exactly the trackers within the age limit go on, unchanged, and the counter has moved by the trackers started, back to zero above its limit |
| TrackLives.UnmatchedExactly | code/Tracker/SORT/SORTTracker.cpp:71-113 | A call that does not match, with too many objects or no survivor, keeps exactly the trackers with a predicted box in the frame and within the age limit, and starts none |
| TrackLives.MatchesExactly | code/Tracker/SORT/SORTTracker.cpp:42-115 | A call matches and reports if and only if some tracker survives the prediction and neither survivors nor detections are more than the maximum |
| TrackLives.FirstExactly | code/Tracker/SORT/SORTTracker.cpp:54-69 | A call without trackers starts one for every detection, in order, and reports nothing |
| TrackLives.ReportedExactly | code/Tracker/SORT/MgenKalman.cpp:218-224 | The reports of a call are, in order, exactly those about the trackers updated or born in it that are within the first min_hits requests or were updated in each of their last min_hits rounds |
| TrackLives.RunReportedExactly | code/Tracker/SORT/SORTTracker.cpp:176-188 | The same for every matching call of every run |
| SortTracking.KalmanTracker.Predict | code/Tracker/SORT/MgenKalman.cpp:33-47 | The object's counters and filter after predict, as the value says |
| SortTracking.KalmanTracker.Update | code/Tracker/SORT/MgenKalman.cpp:50-79 | The same for update, with the class guard |
| Geometry.SegmentTestExact | code/AbnormalActions/src/GeometricLogic.cpp:86-105 | The test differs from NotCrossed if and only if the two closed segments share a real point, degenerate and collinear segments included |
| Geometry.ReversedDirection | code/AbnormalActions/src/GeometricLogic.cpp:67-95 | On a strict crossing, walking the first segment the other way flips Clockwise and CounterClockwise |
| Geometry.DirectionExact | code/AbnormalActions/src/GeometricLogic.cpp:67-105 | The result is NotCrossed without a common point, and otherwise says on which side of the line the step ends: Clockwise on the left of one who walks the line, CounterClockwise on the right, OnLine on it |
| Geometry.OnIsInBox | code/AbnormalActions/src/GeometricLogic.cpp:59-65 | A point of a segment passes the box test |
| Geometry.InBoxIsOn | code/AbnormalActions/src/GeometricLogic.cpp:59-65 | A collinear point that passes the box test is on the segment |
| Geometry.CalcLineCross | code/AbnormalActions/src/AbnormalActionChecker.cpp:100-125 | A result exists if and only if some step of the track meets some region line, and it is the direction of the first such pair in the order regions, lines, steps |
| Geometry.ScanExact | code/AbnormalActions/src/AbnormalActionChecker.cpp:100-125 | The scan over regions, lines and steps reports a crossing if and only if some step of the track shares a real point with some region line |
| Geometry.IsIncludePoint | code/AbnormalActions/src/GeometricLogic.cpp:16-43 | True if and only if the point is a vertex or its rightward ray meets an odd number of edges, where an edge counts when a real point of it is level with the point and strictly to its right, its lower end included and its upper end not |
| Geometry.CrossesExact | code/AbnormalActions/src/GeometricLogic.cpp:31-40 | The quotient test of an edge decides exactly whether a real point of it is level with the point and strictly to its right |
| Geometry.CrossesTurn | code/AbnormalActions/src/GeometricLogic.cpp:31-40 | It is also the sign of an integer: the edge counts exactly when its half-open range of heights holds the point and the point is strictly to its left |
| Polygons.TriangleExact | code/AbnormalActions/src/GeometricLogic.cpp:16-43 | A point on no edge of a triangle is inside if and only if it lies strictly on the same side of all three |
| Polygons.FanExact | code/AbnormalActions/src/GeometricLogic.cpp:16-43 | For any vertex list, crossed or not, a point off the edges of the fan is inside if and only if an odd number of the triangles that fan out from the first vertex hold it |
| Geometry.CrossesSymmetric | code/AbnormalActions/src/GeometricLogic.cpp:32-39 | An edge is crossed the same whichever end is listed first |
| Geometry.ReversalInvariant | code/AbnormalActions/src/GeometricLogic.cpp:16-43 | Listing the vertices backwards does not change the answer, for any point and list |
| Geometry.RotationInvariant | code/AbnormalActions/src/GeometricLogic.cpp:16-43 | Starting the list at another vertex does not change the answer |
| Geometry.ChordSplitting | code/AbnormalActions/src/GeometricLogic.cpp:16-43 | Away from the vertices a point is in a polygon iff it is in exactly one of the two polygons any diagonal cuts it into |
| Schedules.HistoryChecker.GetHistory | code/AbnormalActions/include/HistoryChecker.h:30-52 | Creates, restarts or keeps the history of a track, as Fetched says, and returns its data |
| Schedules.HistoryChecker.ReleaseInactiveHistory | code/AbnormalActions/include/HistoryChecker.h:55-92 | Erases exactly the histories at the limit and refreshes exactly those of the given objects that stay, whatever the map order |
| Schedules.Schedule.LineIntrusionBase | code/AbnormalActions/src/AbnormalActionChecker.cpp:127-196 | A call computes exactly CheckLines on histories, results and timer |
| Schedules.Schedule.LineStep | code/AbnormalActions/src/AbnormalActionChecker.cpp:134-188 | One object of it: history, length limit, minimum length, interval, two-way then one-way crossing |
| Schedules.Schedule.IntrusionZone | code/AbnormalActions/src/AbnormalActionChecker.cpp:208-277 | A call computes exactly CheckZone |
| Schedules.Schedule.ZoneStep | code/AbnormalActions/src/AbnormalActionChecker.cpp:218-270 | One object of it, its loop over the regions included, reports it at most once |
| Schedules.Schedule.VehicleParkingCheck | code/AbnormalActions/src/AbnormalActionChecker.cpp:28-97 | A call computes exactly CheckParking |
| Schedules.Schedule.ParkingStep | code/AbnormalActions/src/AbnormalActionChecker.cpp:37-90 | One object of it: exclusion, region test, sighting list, compression to the first sighting, duration; ParkingReports says what that means over runs |
| Schedules.Schedule.Check | code/AbnormalActions/src/MgenSchedule.cpp:33-49 | Runs the checker of the schedule's event type when the calendar lets it |
| Events.EventsApart | code/AbnormalActions/src/MgenSchedule.cpp:169-181 | In every run two calls that report events are more than the notification interval apart |
| Events.FirstEventLate | code/AbnormalActions/src/MgenSchedule.cpp:169-181 | The first event comes more than the interval after the schedule was made |
| Events.RunListsBounded | code/AbnormalActions/src/AbnormalActionChecker.cpp:60-68 | In every state of every run no stored list exceeds 600 entries |
| Events.RunKept | code/AbnormalActions/src/AbnormalActionChecker.cpp:28-277 | Every call of every run keeps the bounds and the age of sightings |
| Events.CheckKept | code/AbnormalActions/src/AbnormalActionChecker.cpp:28-277 | One call of any checker keeps them, reports only after the interval, and then sets the timer |
| Events.ParkingNeedsShortDuration | code/AbnormalActions/src/AbnormalActionChecker.cpp:49-90 | When the required duration reaches the 120 s after which histories restart plus the longest time between the clock reads of a call, no run ever reports a parked car: this checker never refreshes a history |
| Events.ParkingReportPossible | code/AbnormalActions/src/AbnormalActionChecker.cpp:49-90 | Below that a run that reports a parked car is constructed |
| Events.ParkingReportsExactly | code/AbnormalActions/src/AbnormalActionChecker.cpp:28-97 | With the two reads of a call at most lag ms apart a parking schedule can ever report if and only if the required duration is below 120 s + lag |
| Sightings.DueExactly | code/AbnormalActions/src/MgenSchedule.cpp:169-181 | The event interval is over at a call of a run if and only if more than it has passed since the schedule was made and since every earlier call that reported |
| Sightings.TrailExactly | code/AbnormalActions/include/HistoryChecker.h:30-92 | The sightings a line or zone history rests on are, in order, exactly those since the last scheduled call that followed 10 s or more without the track |
| LineReports.LineTrail | code/AbnormalActions/src/AbnormalActionChecker.cpp:146-158 | In every run the list stored for a track is made of the last L mod 601 midpoints of these L sightings, and there is a list if and only if L > 0 |
| LineReports.ScanFirst | code/AbnormalActions/src/AbnormalActionChecker.cpp:100-125 | The scan gives a side if and only if some step meets some region line and the first that does, in the order regions, lines, steps, ends on that side |
| LineReports.LineReport | code/AbnormalActions/src/AbnormalActionChecker.cpp:127-196 | In every run the results of a call are, in order, exactly the objects it looks at while it is due whose stored list has at least ten points and meets a two-way line or first meets the one-way lines clockwise, each with its track id and direction number |
| ZoneReports.ZoneMark | code/AbnormalActions/src/AbnormalActionChecker.cpp:227-238 | In every run the mark of a history says whether and when the track was last outside every region, of the sightings since the history lapsed |
| ZoneReports.ZoneReport | code/AbnormalActions/src/AbnormalActionChecker.cpp:208-277 | In every run the results of a call are, in order, for each track exactly the first object with which it is inside a region after having been outside all of them in the same history, while the call is due, each with the whole seconds since it was last outside |
| ParkingReports.BeganExactly | code/AbnormalActions/include/HistoryChecker.h:30-52 | A parking history lasts 120 s from its first sighting whatever is seen in it: all its sightings come within them, and the next one begins with the first that comes later |
| ParkingReports.StayExactly | code/AbnormalActions/src/AbnormalActionChecker.cpp:36-58 | The sightings counted for a car are, in order, exactly those inside a region and outside all excluded ones since its history began |
| ParkingReports.ParkingStay | code/AbnormalActions/src/AbnormalActionChecker.cpp:55-68 | In every run the list stored for a car holds the first of these L sightings and the last (L - 1) mod 600 of them, with their times |
| ParkingReports.ParkingReport | code/AbnormalActions/src/AbnormalActionChecker.cpp:28-97 | In every run the results of a call are, in order, exactly the cars inside a region with at least ten stored sightings whose first is older than required and a second or more, while the call is due, each with that age in whole seconds |
| ServiceGraph.EntireServiceBlockProfileGraph.AddServiceBlock | code/BasicLibs/profile/ServiceBlockProfile.cpp:129-136 | Adds a block without edges, or refuses a known id |
| ServiceGraph.EntireServiceBlockProfileGraph.AddStreamPipeline | code/BasicLibs/profile/ServiceBlockProfile.cpp:138-148 | Adds exactly one edge, on both blocks and in the reverse index, or refuses unknown ids |
| ServiceGraph.EntireServiceBlockProfileGraph.AddInputFromExtern | code/BasicLibs/profile/ServiceBlockProfile.cpp:150-160 | Marks an external input and adds no edge |
| ServiceGraph.EntireServiceBlockProfileGraph.AddOutputToExtern | code/BasicLibs/profile/ServiceBlockProfile.cpp:162-169 | Records an external output and leaves the blocks alone |
| ServiceGraph.EntireServiceBlockProfileGraph.InDegrees | code/BasicLibs/profile/ServiceBlockProfile.cpp:213-221 | The in-degree of a block is the number of blocks with an edge to it |
| ServiceGraph.EntireServiceBlockProfileGraph.GetExecutionOrder | code/BasicLibs/profile/ServiceBlockProfile.cpp:211-242 | For any map iteration order the list has no duplicates, puts every edge's source before its target, and nothing more can be listed |
| ServiceGraph.EntireServiceBlockProfileGraph.DetectCycle | code/BasicLibs/profile/ServiceBlockProfile.cpp:244-247 | True if and only if the output edges contain a directed cycle, on every graph built by the Add calls |
| ServiceGraph.OrderExact | code/BasicLibs/profile/ServiceBlockProfile.cpp:228-241 | A block is in the order if and only if no cycle leads to it |
| ServiceGraph.CycleBehind | code/BasicLibs/profile/ServiceBlockProfile.cpp:244-247 | The graph has a cycle iff some block is behind one |
| ServiceGraph.SizeTest | code/BasicLibs/profile/ServiceBlockProfile.cpp:244-247 | Comparing the sizes of the order and the graph decides whether there is a cycle |
| ServiceGraph.KahnStep | code/BasicLibs/profile/ServiceBlockProfile.cpp:231-238 | One turn of the loop keeps: in-degrees count unlisted sources, the queue holds exactly the unlisted blocks of in-degree 0 |
| ServiceGraph.Release | code/BasicLibs/profile/ServiceBlockProfile.cpp:234-238 | Decrements the targets of a block and queues exactly those that reach 0 |
| Suppression.Nms | code/Engine/NPU/YoloV5_Torch_Onnx_RKNN_NPU/YoloV5_Torch_Onnx_RKNN_NPU.cpp:82-114 | One class pass turns the index array from "these classes done" into "these and this one done", independently of which were done before |
| Suppression.SuppressAfter | code/Engine/NPU/YoloV5_Torch_Onnx_RKNN_NPU/YoloV5_Torch_Onnx_RKNN_NPU.cpp:90-111 | The inner loop removes exactly the later positions of the class that overlap too much |
| Suppression.RunPasses | code/Engine/NPU/YoloV5_Torch_Onnx_RKNN_NPU/YoloV5_Torch_Onnx_RKNN_NPU.cpp:317-320 | After the passes of all classes, in any order, position j keeps its index iff it survives the greedy rule, else -1 |
| Suppression.SortByConfidenceDesc | code/Engine/NPU/YoloV5_Torch_Onnx_RKNN_NPU/YoloV5_Torch_Onnx_RKNN_NPU.cpp:118-139 | Both arrays hold the sorted pairs: same pairs, confidences not increasing |
| Suppression.SortedIndices | code/Engine/NPU/YoloV5_Torch_Onnx_RKNN_NPU/YoloV5_Torch_Onnx_RKNN_NPU.cpp:310-315 | The sorted index array is a permutation that pairs every index with its own confidence |
| Suppression.SelectDetections | code/Engine/NPU/YoloV5_Torch_Onnx_RKNN_NPU/YoloV5_Torch_Onnx_RKNN_NPU.cpp:310-343 | The outputs are the surviving boxes in confidence order, each with its own score and class |
| Suppression.SelectedExactly | code/Engine/NPU/YoloV5_Torch_Onnx_RKNN_NPU/YoloV5_Torch_Onnx_RKNN_NPU.cpp:310-343 | These are the boxes at exactly the surviving positions, in order of non-increasing confidence, each with its own confidence and class |
| Suppression.SurvivorsApart | code/Engine/NPU/YoloV5_Torch_Onnx_RKNN_NPU/YoloV5_Torch_Onnx_RKNN_NPU.cpp:90-111 | Two survivors of one class overlap by at most the threshold |
| Suppression.SuppressedBy | code/Engine/NPU/YoloV5_Torch_Onnx_RKNN_NPU/YoloV5_Torch_Onnx_RKNN_NPU.cpp:84-112 | Every suppressed box overlaps above the threshold with an earlier survivor of its class that is at least as confident |
| Suppression.OverlapSymmetric | code/Engine/NPU/YoloV5_Torch_Onnx_RKNN_NPU/YoloV5_Torch_Onnx_RKNN_NPU.cpp:72-79 | The overlap of two boxes does not depend on their order |
| BoxOverlaps.OverlapRange | code/Engine/NPU/YoloV5_Torch_Onnx_RKNN_NPU/YoloV5_Torch_Onnx_RKNN_NPU.cpp:72-79 | The overlap of two boxes lies between 0 and 1; it is 0 exactly for boxes apart and 1 exactly for equal ones |
| BoxOverlaps.OverlapIsPixels | code/Engine/NPU/YoloV5_Torch_Onnx_RKNN_NPU/YoloV5_Torch_Onnx_RKNN_NPU.cpp:72-79 | On whole coordinates it is the number of pixels the boxes have in common over the number they cover together |
| Letterbox.SplitPadding | code/VisionCommon/src/FramePreProcessor.cpp:94-104 | Rounding half the padding minus and plus 0.1 splits any total exactly, without a negative part for a non-negative total |
| Letterbox.LayoutFits | code/VisionCommon/src/FramePreProcessor.cpp:72-105 | For positive sizes left + scale_w + right is the target width and top + scale_h + bottom its height, no part is negative, the picture is in the middle up to a pixel and within half a pixel of the exact scale, ends inside the target, and fills it in one direction: the scale is as large as it can be |
| Letterbox.FilledPartition | code/VisionCommon/src/FramePreProcessor.cpp:193-212 | Picture and grey bands cover every target pixel exactly once and none outside |
| Letterbox.FrameFormattingContext.Lay | code/VisionCommon/src/FramePreProcessor.cpp:69-105 | The layout fields are those of LayoutOf for the current sizes |
| Letterbox.FrameFormattingContext.Update | code/VisionCommon/src/FramePreProcessor.cpp:44-137 | After a call layout and sizes agree; it succeeds iff the sizes repeat or the scaler is made; after a success styles and scaler fit the layout if and only if the call was not a repetition or they did before; a failure keeps the old styles |
| Letterbox.RepeatedAfterFailure | code/VisionCommon/src/FramePreProcessor.cpp:44-50 | A success, a failure and a repetition of the failed sizes: the last call succeeds with the styles of the first and no scaler |
| Letterbox.ConvertToIntermediateRatioLtx | code/BasicLibs/core/types/InferObject.cpp:99-156 | Fails exactly for an empty source frame, else gives left-top ratios per axis |
| Letterbox.ConvertFromIntermediateRatioLtx | code/BasicLibs/core/types/InferObject.cpp:159-217 | Fails exactly for an empty destination frame, else the box in the destination's expression |
| Letterbox.AdjustPadding | code/BasicLibs/core/types/InferObject.cpp:270-369 | The padding step per axis, skipped under exactly the source's guards |
| Letterbox.ClampCorners | code/BasicLibs/core/types/InferObject.cpp:394-490 | The corners are clamped per axis as Clamp says, for both reference types |
| Letterbox.ClampExact | code/BasicLibs/core/types/InferObject.cpp:394-490 | Clamping gives exactly the part of a span that lies in [0, limit], and a point at the nearest end for a span that does not reach it |
| Letterbox.ConvertInferObjectCoordinate | code/BasicLibs/core/types/InferObject.cpp:221-494 | Success and the object afterwards are those of Converted; a failure leaves it unchanged |
| Letterbox.SpanRoundTrip | code/BasicLibs/core/types/InferObject.cpp:274-369 | On one axis, plain to padded and back is the identity for a span inside the frame, in any expression, because no clamp bites |
| Letterbox.RoundTrip | code/BasicLibs/core/types/InferObject.cpp:221-494 | A box inside the source frame, in any format and reference type, mapped to the padded frame of its own layout and back is unchanged; above the scale guard it is at the scaled and padded position in between |
| Letterbox.PlainEdges | code/BasicLibs/core/types/InferObject.cpp:99-217 | Between frames of one kind both edges keep their ratio, whatever the expressions, and are then clamped |
| Letterbox.PaddedEdges | code/BasicLibs/core/types/InferObject.cpp:318-369 | Into a padded frame both edges go to their pixel times the scale plus the padding, whatever the expressions |
| Letterbox.PlacedBox | code/BasicLibs/core/types/InferObject.cpp:221-494 | All four edges of a box inside the source frame land where the layout puts their pixels |
| SafeQueues.SafeQueue.Enqueue | code/BasicLibs/core/structure/SafeQueue.h:56-77 | A queue with room, or without a limit, keeps all its items and counts no drop; a full one loses exactly its oldest item and counts it |
| SafeQueues.SafeQueue.DequeueWaitFor | code/BasicLibs/core/structure/SafeQueue.h:86-106 | Nothing when terminated or empty, else the oldest item ever put in that has not left: items leave in the order they came |
| SafeQueues.SafeQueue.SetMaxSize | code/BasicLibs/core/structure/SafeQueue.h:49-53 | Changes the limit only; a lower limit drops nothing by itself |
| SafeQueues.SafeQueue.Terminate | code/BasicLibs/core/structure/SafeQueue.h:119-124 | Terminates and keeps the items |
| SafeQueues.SafeQueue.Swap | code/BasicLibs/core/structure/SafeQueue.h:149-196 | Empties the queue in one step, hands all items on in order and drops none |
| SafeQueues.EnqueuedExactly | code/BasicLibs/core/structure/SafeQueue.h:59-63 | The same as a function of the items; a queue within its limit stays within it |
| HandlerLines.HandlerKept | code/Engine/EngineBase/src/EngineHandlerBase.cpp:190-325 | Every step of worker, closer and requesters keeps: each request put in is answered once, owed, refused or waiting, in one place only; and replies stay in request order unless a step overtakes |
| HandlerLines.OnePlace | code/Engine/EngineBase/src/EngineHandlerBase.cpp:190-325 | The multiplicities of a request among answered, results to send, batch, hand, refused, closing and waiting add up to one |
| HandlerLines.RepliesInOrder | code/Engine/EngineBase/src/EngineHandlerBase.cpp:204-303 | Over every run: replies are in request order while none overtakes; where nothing was refused, replies given and owed are in order if and only if none did |
| HandlerLines.PreprocessFailureOvertakes | code/Engine/EngineBase/src/EngineHandlerBase.cpp:201-221 | A concrete run where order is lost: with a batch of two, Preprocess throws on the second request, which is answered before the first |
| HandlerLines.CloserOvertakes | code/Engine/EngineBase/src/EngineHandlerBase.cpp:307-316 | A second one: the closer answers a later request while the worker holds an earlier one |
| HandlerLines.ClosedAccounts | code/Engine/EngineBase/src/EngineHandlerBase.cpp:307-316 | After the closer, every request was answered exactly once if and only if no batch was waiting and none was refused |
| HandlerLines.ClosedKept | code/Engine/EngineBase/src/EngineHandlerBase.cpp:307-316 | The closer's turn keeps all accounts |
| HandlerLines.TurnedKept | code/Engine/EngineBase/src/EngineHandlerBase.cpp:190-304 | A whole turn of the worker keeps all accounts, whatever the virtual methods do |
| HandlerLines.LateRequestStays | code/Engine/EngineBase/src/EngineHandlerBase.cpp:307-316 | A request that arrives after the closer emptied the queue stays there and is never answered |
| EngineHandlers.EngineHandlerBase.Turn | code/Engine/EngineBase/src/EngineHandlerBase.cpp:190-304 | One turn of the loop on the queue objects: without a request nothing changes; else a ready batch is answered whole and in order, as failed exactly when inference or postprocessing failed; a batch not ready brings no reply and stays; when Preprocess throws only a request left out of the batch is answered, as failed |
| EngineHandlers.EngineHandlerBase.Handle | code/Engine/EngineBase/src/EngineHandlerBase.cpp:200-303 | The part after the dequeue: a ready batch is answered whole and in order, as failed exactly when inference or postprocessing failed; a batch not ready brings no reply and stays; when Preprocess throws only a request left out of the batch is answered, as failed |
| EngineHandlers.EngineHandlerBase.AnswerAll | code/Engine/EngineBase/src/EngineHandlerBase.cpp:256-301 | Answers all requests of a batch in order |
| EngineHandlers.EngineHandlerBase.InferenceThreadRunner | code/Engine/EngineBase/src/EngineHandlerBase.cpp:175-305 | The loop over any arrivals and outcomes reaches the state and the replies of the specification |
| EngineHandlers.EngineHandlerBase.InferenceThreadCloser | code/Engine/EngineBase/src/EngineHandlerBase.cpp:307-316 | Terminates the queue and answers everything still queued, in order, as failures |
| EngineHandlers.LoopHead | code/Engine/EngineBase/src/EngineHandlerBase.cpp:190-304 | At every head of the loop each dequeued request was answered exactly once, or is in the batch, or was refused |
| EngineHandlers.RepliesAsked | code/Engine/EngineBase/src/EngineHandlerBase.cpp:190-304 | The replies sent over the turns are those to the requests counted as answered, in the same order |
| EngineHandlers.TurnExactly | code/Engine/EngineBase/src/EngineHandlerBase.cpp:190-304 | The same of the turn as a function, which the runs are made of |
| EngineHandlers.AnsweredWhenReady | code/Engine/EngineBase/src/EngineHandlerBase.cpp:175-305 | In every run of the loop a request that joined the batch is answered in the first turn that finds the batch ready, failed exactly when inference or postprocessing of that turn failed, and the batch is empty after it |
| ReplySides.ReplyKept | code/Management/manager/src/EngineLoadBalancer.cpp:104-331 | Every critical section of the reply side keeps: a result queue holds replies of its unit in order and at most ten, no reply is in two queues, deliveries are of the unit asked for, once, and in order |
| ReplySides.PutKept | code/Management/manager/src/EngineLoadBalancer.cpp:318-327 | The same for the dispatcher's enqueue with its drop of the oldest |
| ReplySides.DeliverKept | code/Management/manager/src/EngineLoadBalancer.cpp:233-250 | The same for a caller's dequeue |
| ReplyDrops.DropsKept | code/Management/manager/src/EngineLoadBalancer.cpp:318-327 | Every critical section keeps: behind every dropped reply ten later ones were routed to the same queue |
| ReplyDrops.DroppedBehindTen | code/Management/manager/src/EngineLoadBalancer.cpp:297-331 | So in every interleaving a reply is dropped only when ten later replies to the same unit were put behind it |
| ReplySides.GenerationsKept | code/Management/manager/src/EngineLoadBalancer.cpp:121-149 | Every step keeps: all replies that were ever in an older queue of a unit came before all that were ever in a newer one |
| ReplySides.DeliveryOrder | code/Management/manager/src/EngineLoadBalancer.cpp:233-250 | Two deliveries to one unit are in order if and only if the later one does not come out of an older queue |
| Pipelines.StepKept | code/Management/manager/src/EngineLoadBalancer.cpp:54-331 | Every step of every thread, in any interleaving, keeps the invariant that links clients, handlers, the shared reply queue and the result queues |
| Pipelines.RunInv | code/Management/manager/src/EngineLoadBalancer.cpp:54-331 | It holds in every state of every run with any number of client threads |
| Pipelines.ReplyToAsker | code/Management/manager/src/EngineLoadBalancer.cpp:233-250 | In every interleaving what RespondAsync gives answers an accepted request of the unit that asked |
| Pipelines.DeliveredAtMostOnce | code/Management/manager/src/EngineLoadBalancer.cpp:297-331 | No two deliveries ever answer the same request |
| Pipelines.AnsweredOnce | code/Management/manager/src/EngineLoadBalancer.cpp:297-331 | No request appears twice in the shared reply queue's history |
| CameraOrders.CameraOrder | code/Management/manager/src/EngineLoadBalancer.cpp:233-331 | In every interleaving, the replies a unit gets from a handler that let nothing overtake are in that handler's request order if and only if the later delivery does not come out of an older queue of the unit, whatever was dropped in between |
| CameraOrders.UnitOrder | code/Management/manager/src/EngineLoadBalancer.cpp:233-331 | Over every run a unit gets all replies in order if and only if no caller took one out of an older queue after another was given one out of a newer |
| CameraOrders.OneCallerInOrder | code/Management/manager/src/EngineLoadBalancer.cpp:233-250 | One caller at a time for a unit is enough, however its queue is replaced |
| CameraOrders.NoReplacementInOrder | code/Management/manager/src/EngineLoadBalancer.cpp:121-149 | So is never replacing a queue that is alive, however many callers there are |
| CameraOrders.CameraOrderLost | code/Management/manager/src/EngineLoadBalancer.cpp:104-331 | A run with one orderly handler and nothing lost in which a unit gets the reply to its second request first |
| CameraOrders.FullOrder | code/Management/manager/src/EngineLoadBalancer.cpp:186-331 | With a single handler, no overtaking, refusal, drop or discard, a delivery has been preceded by the replies to all earlier requests of the unit, except exactly those left behind in an older queue |
| Pipelines.SingleLine | code/Management/manager/src/EngineLoadBalancer.cpp:186-230 | With a single handler that refused nothing and let nothing overtake, the p-th reply answers the p-th accepted request |
| Pipelines.RequestInOnePlace | code/Management/manager/src/EngineLoadBalancer.cpp:186-230 | Every accepted request is waiting, owed, refused or answered: exactly one of these and once |
| Pipelines.ReplyInOnePlace | code/Management/manager/src/EngineLoadBalancer.cpp:297-331 | Every reply the dispatcher took is held by it, in one place of one queue, delivered once, dropped or discarded |
| Pipelines.QueueBound | code/Management/manager/src/EngineLoadBalancer.cpp:216-229 | With P client threads the unsynchronised size check keeps every handler queue at most 127 + P long |
| Pipelines.BoundIsMet | code/Management/manager/src/EngineLoadBalancer.cpp:216-229 | For every P a run reaches exactly 127 + P |
| Subscriptions.SubscriptionKept | code/Management/manager/src/EngineLoadBalancer.cpp:104-149 | A step keeps "every subscribed unit has a queue or is about to get one" if and only if it does not subscribe a unit between the two halves of a removal |
| Subscriptions.SubscribedHaveQueues | code/Management/manager/src/EngineLoadBalancer.cpp:104-149 | In every run without such a step every subscribed unit has a result queue or is about to get one |
| Subscriptions.OverlapCanStrand | code/Management/manager/src/EngineLoadBalancer.cpp:104-285 | From every such step the run can go on so that the unit stays subscribed without a queue and none to come |
| Subscriptions.SubscribedWithoutQueue | code/Management/manager/src/EngineLoadBalancer.cpp:104-149 | A run that ends so |
| RoundRobin.ChoicesFair | code/Management/manager/src/EngineLoadBalancer.cpp:208-213 | After k choices each of n handlers was chosen floor(k/n) or ceil(k/n) times, unless the 64-bit counter wraps around and n does not divide its range |
| RoundRobin.FairExactly | code/Management/manager/src/EngineLoadBalancer.cpp:208-213 | Every window of choices is fair if and only if n divides 2^64 |
| RoundRobin.UnfairAtWrap | code/Management/manager/src/EngineLoadBalancer.cpp:208-213 | Otherwise a window at the wrap-around chooses one handler twice among at most n choices |
| Fairness.SelectedInTurn | code/Management/manager/src/EngineLoadBalancer.cpp:201-214 | In any run without a handler joining or leaving, the m-th selection takes the handler the counter says |
| Fairness.HandlersShareRequests | code/Management/manager/src/EngineLoadBalancer.cpp:201-214 | In any part of any run without a handler joining or leaving, k selections give each of n handlers floor(k/n) or ceil(k/n) requests |
| LoadBalancers.EngineLoadBalancer.Linker | code/Management/manager/src/EngineLoadBalancer.cpp:151-179 | Rejects exactly when terminated, already linked or of an unknown profile; else adds the handler and gives the shared reply queue |
| LoadBalancers.EngineLoadBalancer.SelectHandler | code/Management/manager/src/EngineLoadBalancer.cpp:200-214 | The handler whose turn it is, and the counter moved by one modulo 2^64 |
| LoadBalancers.EngineLoadBalancer.RequestAsync | code/Management/manager/src/EngineLoadBalancer.cpp:186-230 | Accepted exactly when not terminated, the image is not empty, some handler is linked and its queue is below 128; then only that queue grows |
| LoadBalancers.EngineLoadBalancer.Subscribe | code/Management/manager/src/EngineLoadBalancer.cpp:104-132 | Registers the unit with a fresh empty result queue of ten, or refuses |
| LoadBalancers.EngineLoadBalancer.Unsubscribe | code/Management/manager/src/EngineLoadBalancer.cpp:134-149 | Removes unit and queue, and terminates the queue for callers that wait on it |
| LoadBalancers.EngineLoadBalancer.RespondAsync | code/Management/manager/src/EngineLoadBalancer.cpp:233-250 | The oldest reply in the unit's queue, and always one to a request of this unit |
| LoadBalancers.EngineLoadBalancer.DispatchOne | code/Management/manager/src/EngineLoadBalancer.cpp:302-328 | The oldest reply goes to its unit's queue or is discarded; below ten replies that queue keeps all it had, at ten it loses its oldest and counts the drop; no other queue changes |
| LoadBalancers.EngineLoadBalancer.Route | code/Management/manager/src/EngineLoadBalancer.cpp:311-327 | The part after the dequeue |
| LoadBalancers.EngineLoadBalancer.DestroySubscribersAll | code/Management/manager/src/EngineLoadBalancer.cpp:264-285 | All result queues end terminated and all units are forgotten |
| LoadBalancers.EngineLoadBalancer.Terminate | code/Management/manager/src/EngineLoadBalancer.cpp:54-77 | Only the first call has an effect: handlers are forgotten and the dispatcher's queue is terminated |
| BalancerSteps.RequestSteps | code/Management/manager/src/EngineLoadBalancer.cpp:186-230 | RequestAsync on the object is Select, CheckSize and Send of the state machine, as far as it gets |
| BalancerSteps.RespondSteps | code/Management/manager/src/EngineLoadBalancer.cpp:233-250 | RespondAsync is Ask, FindQueue and Receive or GiveUp, with the same reply |
| BalancerSteps.DispatchSteps | code/Management/manager/src/EngineLoadBalancer.cpp:302-328 | A turn of the dispatcher is DispatchTake, DispatchLookup and DispatchPut, as far as it gets |
| BalancerSteps.SubscribeSteps | code/Management/manager/src/EngineLoadBalancer.cpp:104-132 | Subscribe is its two steps |
| BalancerSteps.UnsubscribeSteps | code/Management/manager/src/EngineLoadBalancer.cpp:134-149 | Unsubscribe is its two steps |
| BalancerSteps.DestroySteps | code/Management/manager/src/EngineLoadBalancer.cpp:264-285 | DestroySubscribersAll is its three steps |
| BalancerSteps.LinkSteps | code/Management/manager/src/EngineLoadBalancer.cpp:151-179 | Linker is one step |
| BalancerSteps.TerminateSteps | code/Management/manager/src/EngineLoadBalancer.cpp:54-77 | Terminate is its three steps, the first time |

## Left out

- Hungarian.HungarianSolver.Solve: costs are reals, so IEEE rounding, NaN and infinities are not modelled; the zero test keeps a parameter `eps > 0` for DBL_EPSILON. A matrix with no row is excluded because the source reads its first row.
- Hungarian.HungarianSolver.SmallestOpen: takes the minimum of the uncovered entries, which are never none, instead of starting from DBL_MAX.
- Hungarian.HungarianSolver.FillIn: the memsets that later writes overwrite, and the buffers' allocation and release, are left out.
- SortTracking.SORTTracker.TrackObjects: exceptions and the mutex are left out; predicted boxes, the Kalman filter's numbers and the overlap come in as functions of which only the frame test is used. The id counter wraps at 2^32 and resets as in the source; the other counters are unbounded.
- Tracks.RunIds: ends at the counter's reset, after which an id can be issued again; TrackIds says when live ids still differ.
- Geometry.SegmentTestExact: coordinates are unbounded integers, so the overflow of 32-bit products is not modelled; the crossing test of the polygon uses exact quotients.
- Geometry.CalcLineCross: an empty region line or an empty track is excluded because the source's unsigned size minus one would wrap around.
- Schedules.Schedule.Check: black list, weekday and time range come in as one flag; the clock is read twice per call, for the histories and for everything else, where the source reads it for every object; the steady clock of histories and the system clock of events are one clock. Object boxes are their midpoints, and the event data is one number.
- Letterbox.RoundTrip: reals instead of floats; the comparison constants are kept. Enumeration values outside the declared ones, and the buffers the scaler fills, are left out.
- Letterbox.FrameFormattingContext.Update: sizes are positive (zero sizes divide by zero in the source); whether the scaling library made its context is a parameter; the buffer pool is left out.
- Suppression.SortByConfidenceDesc: the result of std::sort is a parameter that must be what the standard promises for the comparator; boxes are records instead of four consecutive floats.
- HandlerLines.RepliesInOrder: the if-and-only-if is stated for runs in which Preprocess leaves no request out of the batch silently; with such a refusal a request can be overtaken and then never answered, so only the direction from no overtaking to order is claimed.
- EngineHandlers.EngineHandlerBase.Turn: Preprocess, DoInference and Postprocess come in as an outcome, a throw included; Postprocess is taken to give one result per batch entry in order, as the one implementation does (code/Engine/NPU/YoloV5_Torch_Onnx_RKNN_NPU/YoloV5_Torch_Onnx_RKNN_NPU.cpp:679-710), and to be unable to change the batch.
- Pipelines.StepKept: memory-model effects below the mutexes, waiting times and fairness of the scheduler are left out; a wait that ends empty is a step that gives up. Replies carry no detected objects, metrics and inference counts are left out.
- LoadBalancers.EngineLoadBalancer.RequestAsync: runs without interference between its critical sections; BalancerSteps makes it steps of module Pipelines, which states what holds with interference.
- The unused ReplyDispatcher, inference counters, metrics, logging, correlation ids and requester-id offsets: only easy members.
- RKNN, FFmpeg, GStreamer and OpenCV calls, tensor decoding and quantisation, image writing and memory pools: foreign code or I/O.
- gRPC, REST, Socket.IO and RTSP handlers, settings and profile parsing, and the detector unit around the tracker: plumbing and bookkeeping.
