# A model of OSVR-Core's blob tracking, wire buffer and route rewriting

Three parts of OSVR-Core are modelled in Dafny, and properties of the models are proved.

**The blob-to-beacon pipeline of the video-based tracker.** A camera frame yields blobs. For each sensor the
tracker matches them greedily to the LEDs it follows, deletes LEDs that find none and creates an LED for every
blob left over. An LED keeps a sliding window of brightnesses. A window of full length is thresholded to a string
of bits and searched for in the blink patterns, each wrapped onto a second copy of itself so that any phase of
the cyclic code is found. The pose estimator then takes the identified LEDs through a RANSAC solver or a Kalman
filter, counts how well that goes, and tells LEDs that face away that they are misidentified, which starts their
windows over. The measurement model of the filter, a pinhole projection with a Jacobian written out by hand, is
compared with the projection it belongs to.

**The wire buffer.** Values and byte runs are appended with alignment padding and read back by a reader that throws
at the end of the data; numbers travel in network byte order.

**The route rewriter of the calibration tools.** A route is a nest of JSON objects. One function removes the levels
that satisfy a predicate, another wraps a route's source in a new level.

## Layout

| file | what it holds |
|---|---|
| `Types.dfy`, `Vectors.dfy` | shared values |
| `Rotations.dfy`, `IdentifierHelpers.dfy`, `LedIdentifier.dfy` | decoding a window of brightnesses |
| `LedModel.dfy`, `LedObject.dfy`, `LedHistory.dfy`, `KeptIds.dfy` | one LED: its state, its object, its whole life, and when it keeps its ID |
| `Matching.dfy`, `MatchingRadius.dfy` | matching blobs to LEDs, and how far they may have moved |
| `PoseModel.dfy`, `PoseEstimator.dfy` | the pose estimator: its state, its object |
| `KalmanPass.dfy`, `ReprojectionCheck.dfy` | what a Kalman pass does to each LED, and the check of the solver |
| `PoseHistory.dfy`, `PoseCounters.dfy`, `PoseOrigin.dfy` | the estimator over every history of calls: its flags, its counters, and where a pose comes from |
| `SensorModel.dfy`, `VideoTracker.dfy`, `TrackerSession.dfy` | one step of a sensor, the tracker object, and a tracker from its construction on |
| `SensorRun.dfy`, `SensorHistory.dfy`, `SensorCalls.dfy`, `ProbationStreak.dfy` | whole runs of one sensor and of several, what each frame keeps, the calls they make of their estimators, and a run with the longest streak of bad ones |
| `Blinking.dfy`, `Identification.dfy`, `SharedScene.dfy`, `ExampleScene.dfy` | how lights blink, the end-to-end results for one sensor and for several, and a scene that meets their conditions |
| `PassingLight.dfy`, `SharedPassage.dfy`, `ExamplePassage.dfy` | the same for lights that come and go |
| `ImagePoint.dfy` | projection and Jacobian |
| `Endianness.dfy`, `WireBuffer.dfy` | byte order, buffer and reader |
| `TransformLevels.dfy` | routes |

Objects whose fields the source updates are classes. The methods of `Led`, `BeaconBasedPoseEstimator` and
`VideoBasedTracker` are each proved to take the object from one value to the next as a specification function
says (`View()` is the value of the object); the lemmas then speak about these functions over all inputs and
all runs. In the same way `Buffer` and `BufferReader` are tied to `Emit` and `Parse`, and the two loops of the
route rewriter to `RemoveLevelsIf`.

The main results are `Identification.IdentifiesBeacons`, `SharedScene.EachIdentifiesItsOwn` and `PassingLight.IdentifiedInPassing`
(which LED carries which ID, over every run of one sensor and of several, with lights that stay and that come and go),
`Matching.MatchIsGreedy` with `Matching.GreedyIsUnique` and `Matching.MatchRecoversTruth`,
`PoseHistory.ModeHistory` with `NoTwelveBadPasses`, `PoseCounters.RecoversIff`, `PoseOrigin.PoseHasOrigin`, `KalmanPass.WhatHappensTo`, `ReprojectionCheck.AcceptedAreCloseIff`
with `CloseAreAcceptedIff`, `ImagePoint.JacobianExact` with `ResidualExact`, `WireBuffer.RoundTrip` with `NumbersCross`, and `TransformLevels.RemoveTwice` with `PruneUndoesWrap`.

## Where the code differs from what it says

The model follows the code. These differences came up.

- The measurement flag of the estimator is set and never cleared. A Kalman estimate happens only after a success,
  which sets it, so the counter of frames whose measurements were all rejected is zero in every reachable state and
  the reset it should trigger never fires (`PoseHistory.ModeHistory`).
- The check after RANSAC is described as making sure that the inliers reproject close to where they were seen. It compares
  the signed difference, so errors to the left and upwards are not bounded, and it looks at the first points of the list,
  as many as there are inliers, and not at the points that the solver named. `ReprojectionCheck.AcceptedAreCloseIff` and
  `CloseAreAcceptedIff` say exactly for which numbers of points the check does what it should, whatever the solver
  reports: accepted solutions are close only when nothing can be accepted, and close ones are all accepted only when
  there is at most one point or all points must be inliers (`InliersCloseIff` tells what is left to chance in a single
  report). `LeftErrorAccepted`, `NamedInlierUnchecked` and `OutlierTurnsDown` give, for the other numbers, reports within
  the solver's own bound of 8 pixels on which it goes wrong.
- `SetBeacons` clears the beacons but appends to the old list of fixed flags, and a single variance only fills up
  the old list. `PoseHistory.FlagsMatchIff` and `PoseHistory.VariancesMatchIff` say exactly when every beacon
  still gets what it was given; `PoseHistory.SecondCallKeepsOldTables` is an example where it does not.
- Pruning the calibration layers from a source that was pruned and then wrapped gives it back if and only if what was
  pruned first is an object (`TransformLevels.PruneUndoesWrap`). The other input that passes the pruning is JSON null; the
  calibration layer around it is then innermost, where nothing removes it (`TransformLevels.NullKeepsItsLayer`). On any
  other value the JSON library throws before anything is pruned.
- An identifier whose patterns are all disabled can be constructed; it has length 0 and retains no sample, so the search for the
  extrema would run on an empty list (`LedIdentifier.DisabledTable`, `LedIdentifier.NoLengthIffNoPattern`). An LED is modelled with an identifier of length at
  least 1 or with none.
- The novelty of a new LED has no initial value. It is an arbitrary byte here, and `LedHistory.NoveltyCountsDown` shows
  that it does not matter once the LED is identified.

## Model

| member | source | states |
|---|---|---|
| Rotations.SubstringIffRotation | plugins/videobasedtracker/HDKLedIdentifier.cpp:80-87 | a window as long as the pattern occurs in the wrapped pattern if and only if it is a cyclic rotation of it |
| Rotations.RotationTransitive | plugins/videobasedtracker/HDKLedIdentifier.cpp:128-143 | being a rotation is transitive, so patterns fall into classes that the decoder cannot tell apart |
| Rotations.PeriodIsRotation | plugins/videobasedtracker/HDKLedIdentifier.cpp:128-134 | one period of a cyclic code read from any phase is a rotation of the code |
| IdentifierHelpers.TruncateBrightnessListTo | plugins/videobasedtracker/IdentifierHelpers.h:42-48 | dropping from the front in a loop leaves exactly the last n samples, in order |
| IdentifierHelpers.Dimmest | plugins/videobasedtracker/IdentifierHelpers.h:52-60 | a sample of the list, no greater than any other |
| IdentifierHelpers.Brightest | plugins/videobasedtracker/IdentifierHelpers.h:52-60 | a sample of the list, no less than any other |
| IdentifierHelpers.BothSymbols | plugins/videobasedtracker/IdentifierHelpers.h:62-79 | thresholding at the midpoint of the extrema yields both symbols whenever there is any spread |
| IdentifierHelpers.BitsOfRescaled | plugins/videobasedtracker/IdentifierHelpers.h:52-79 | the bits do not change under any increasing affine map of the brightnesses |
| LedIdentifier.Create | plugins/videobasedtracker/HDKLedIdentifier.cpp:42-89 | the constructor throws if and only if two enabled patterns differ in length; otherwise it keeps each pattern's index, wraps the enabled ones and leaves the disabled ones empty |
| LedIdentifier.NoLengthIffNoPattern | plugins/videobasedtracker/HDKLedIdentifier.cpp:46-71 | an identifier has length 0, and retains nothing of any list it is given, if and only if no pattern of its table is enabled |
| LedIdentifier.GetId | plugins/videobasedtracker/HDKLedIdentifier.cpp:91-148 | result, retained list and bright flag are those of the reading that the lemmas below characterise |
| LedIdentifier.FindPattern | plugins/videobasedtracker/HDKLedIdentifier.cpp:135-147 | the search loop computes the search that the next row characterises |
| LedIdentifier.SearchFindsLeastRotation | plugins/videobasedtracker/HDKLedIdentifier.cpp:135-147 | from any index on, the search finds the least enabled pattern that is a rotation of the bits, and fails if and only if there is none |
| LedIdentifier.DecodeFindsLeastRotation | plugins/videobasedtracker/HDKLedIdentifier.cpp:124-147 | a fresh ID is the least index of an enabled pattern of which the thresholded window is a rotation, or -3 exactly when there is none |
| LedIdentifier.DecodedPatternBlinks | plugins/videobasedtracker/HDKLedIdentifier.cpp:106-143 | a window with enough spread never decodes to a constant pattern |
| LedIdentifier.DecodesOwnPattern | plugins/videobasedtracker/HDKLedIdentifier.cpp:128-143 | if no other enabled pattern is a rotation of a code, every rotation of the code decodes to it |
| LedIdentifier.DecodeIgnoresPhase | plugins/videobasedtracker/HDKLedIdentifier.cpp:128-134 | turning the window by any amount changes neither the ID nor the spread |
| LedIdentifier.ReadIgnoresScale | plugins/videobasedtracker/HDKLedIdentifier.cpp:100-147 | when no earlier ID is kept, because IDs are not kept or there is none, an increasing affine map of the whole history that keeps enough spread changes neither ID nor bright flag |
| KeptIds.PatternReadsBack | plugins/videobasedtracker/HDKLedIdentifier.cpp:56-87 | every pattern of the two symbols, both present, reads back as itself or as an earlier rotation of it |
| KeptIds.OthersNeverRead | plugins/videobasedtracker/HDKLedIdentifier.cpp:68-73 | a pattern that is empty or has any other character is never read |
| LedModel.ArgNearest | plugins/videobasedtracker/LED.cpp:130-143 | the first of the nearest blobs |
| LedObject.Led.constructor | plugins/videobasedtracker/LED.cpp:30-36 | a new LED has taken its first measurement, whatever its novelty byte held |
| LedObject.Led.AddMeasurement | plugins/videobasedtracker/LED.cpp:38-72 | measurement, history, ID, bright flag and novelty change as one observation says; nothing else does |
| LedObject.Led.NearestBlob | plugins/videobasedtracker/LED.cpp:118-150 | the running-minimum loop returns the first nearest blob, or the end when it is out of reach |
| LedObject.Led.MarkMisidentified | plugins/videobasedtracker/LED.cpp:152-158 | the ID is dropped and only the latest brightness is kept |
| LedHistory.SlidingWindow | plugins/videobasedtracker/LED.cpp:38-49 | over every life of an LED, its history is exactly the last `length` samples since creation, or since the sample that the last misidentification kept; all samples without an identifier |
| LedHistory.UnknownIffTooFewSamples | plugins/videobasedtracker/HDKLedIdentifier.cpp:94-98 | over every life, the ID is -1 exactly while there are fewer samples than the pattern length, and for patterns of length 1 also between a misidentification and the next measurement |
| LedHistory.MisidentificationHolds | plugins/videobasedtracker/LED.cpp:152-158 | after a misidentification the next `length` - 2 measurements all leave the ID unknown, whether or not blobs keep their IDs |
| LedHistory.ReportedPatternsBlink | plugins/videobasedtracker/HDKLedIdentifier.cpp:68-73 | every ID an LED ever reports is in range and names an enabled pattern with both symbols |
| LedHistory.NoveltyCountsDown | plugins/videobasedtracker/LED.cpp:61-70 | the novelty of an identified LED is 4 less the measurements since its ID was acquired, at least 0 |
| LedHistory.NoveltyDecays | plugins/videobasedtracker/LED.cpp:61-70 | whatever the ID, novelty is 4 less the measurements since the last one that changed the ID, or the first value less all of them, and at least 0; nothing else affects it |
| KeptIds.FlatIsUnread | plugins/videobasedtracker/HDKLedIdentifier.cpp:106-114 | a full window gives -2 if and only if no two of its samples are more than 0.3 apart, even when an ID was held, and leaves the bright flag |
| KeptIds.IdentifiedKeepsId | plugins/videobasedtracker/HDKLedIdentifier.cpp:119-122 | with the option on, an identified LED keeps its ID whatever its window would decode to |
| KeptIds.OthersReadAfresh | plugins/videobasedtracker/HDKLedIdentifier.cpp:119-147 | with the option off, or without an ID, the window is decoded afresh |
| KeptIds.FollowerKeepsIff | plugins/videobasedtracker/VideoBasedTracker.cpp:200-202 | the configured option decides which of the two a surviving LED does |
| KeptIds.IdHeldIff | plugins/videobasedtracker/LED.cpp:38-72 | over every life with the option on, an identified LED has the same ID all along if and only if no misidentification and no window of too little spread comes in between |
| KeptIds.BrightFlagIsShown | plugins/videobasedtracker/HDKLedIdentifier.cpp:115-117 | over every life the bright flag says whether the latest sample of the last window that was read is in the upper half of its range |
| Matching.MatchConserves | plugins/videobasedtracker/VideoBasedTracker.cpp:187-205 | latest measurements of the survivors and blobs left over are together the blobs of the frame, as multisets |
| Matching.BlobsConserved | plugins/videobasedtracker/VideoBasedTracker.cpp:183-214 | after the matching block each blob of the frame is the latest measurement of exactly one LED |
| Matching.MatchByIndex | plugins/videobasedtracker/VideoBasedTracker.cpp:187-205 | erasing blobs from the list as they are taken amounts to claiming indices of the original list |
| Matching.ClaimsAreGreedy | plugins/videobasedtracker/VideoBasedTracker.cpp:187-205 | at every point of the loop, each LED still to come takes the nearest blob not yet claimed |
| Matching.MatchIsGreedy | plugins/videobasedtracker/VideoBasedTracker.cpp:187-205 | every survivor holds the nearest unclaimed blob, the first on ties, within its reach; a deleted LED had none in reach; survivors keep their order and left-over blobs the order of the frame |
| Matching.GreedyIsUnique | plugins/videobasedtracker/VideoBasedTracker.cpp:187-205 | that description determines which LED takes which blob |
| Matching.MatchRecoversTruth | plugins/videobasedtracker/VideoBasedTracker.cpp:175-183 | if each LED has a blob of its own within reach and strictly nearest, every LED survives and follows just that blob |
| Matching.NearestFollows | plugins/videobasedtracker/VideoBasedTracker.cpp:187-205 | an LED follows the blob strictly nearest to it and in its reach if no earlier LED reaches that blob, whatever becomes of the others |
| Matching.UnreachedIsBorn | plugins/videobasedtracker/VideoBasedTracker.cpp:206-213 | a blob that no LED reaches gets a new LED |
| Matching.OrderDoesNotMatter | plugins/videobasedtracker/VideoBasedTracker.cpp:187-205 | then the pairs are the same for every order of the LED list |
| MatchingRadius.AloneSurvivesIff | plugins/videobasedtracker/VideoBasedTracker.cpp:189-195 | an LED alone with a blob survives if and only if the blob is within the configured multiple of the LED's diameter |
| MatchingRadius.DeletedIff | plugins/videobasedtracker/VideoBasedTracker.cpp:189-196 | in a whole frame an LED is deleted if and only if earlier LEDs took every blob within that distance |
| MatchingRadius.ZoomKeepsClaims | plugins/videobasedtracker/VideoBasedTracker.cpp:189-191 | scaling all locations and diameters by one factor changes no claim |
| MatchingRadius.WholeUpdate | plugins/videobasedtracker/VideoBasedTracker.cpp:183-214 | the list after a frame is the survivors in their old order and then one new LED per unclaimed blob, in the order of the frame |
| PoseEstimator.BeaconBasedPoseEstimator.constructor | plugins/videobasedtracker/BeaconBasedPoseEstimator.cpp:54-61 | the state a new estimator starts from |
| PoseEstimator.BeaconBasedPoseEstimator.SetBeacons | plugins/videobasedtracker/BeaconBasedPoseEstimator.cpp:63-104 | the pose is given up and the tables are replaced as written; it throws if and only if the lists differ in length |
| PoseEstimator.BeaconBasedPoseEstimator.SetCameraParameters | plugins/videobasedtracker/BeaconBasedPoseEstimator.cpp:129-136 | the pose is given up, nothing else changes |
| PoseEstimator.BeaconBasedPoseEstimator.ForceRansacIfKalmanNeedsReset | plugins/videobasedtracker/BeaconBasedPoseEstimator.cpp:213-252 | resets exactly when a counter is over its limit, the blob counter only when an identified LED is in range again |
| PoseEstimator.BeaconBasedPoseEstimator.PnpRansacEstimator | plugins/videobasedtracker/BeaconBasedPoseEstimator.cpp:254-383 | succeeds exactly when there are enough points, the solver converged and named enough inliers, and the check as written passes; sets the measurement flag just then |
| PoseEstimator.BeaconBasedPoseEstimator.CollectImagePoints | plugins/videobasedtracker/BeaconBasedPoseEstimator.cpp:262-277 | the locations of the identified LEDs in range, in order, paired with the beacons they claim to be |
| PoseEstimator.BeaconBasedPoseEstimator.CountInBounds | plugins/videobasedtracker/BeaconBasedPoseEstimator_Kalman.cpp:78-101 | how many LEDs are identified and in range, and how many of them bright |
| PoseEstimator.BeaconBasedPoseEstimator.CorrectFromLed | plugins/videobasedtracker/BeaconBasedPoseEstimator_Kalman.cpp:141-249 | one LED gets exactly one verdict and is refuted, marked used or left alone accordingly |
| PoseEstimator.BeaconBasedPoseEstimator.CorrectFromLeds | plugins/videobasedtracker/BeaconBasedPoseEstimator_Kalman.cpp:139-249 | all LEDs are judged, good and bad ones counted, and the measurement flag set if any was used |
| PoseEstimator.BeaconBasedPoseEstimator.UpdateProbation | plugins/videobasedtracker/BeaconBasedPoseEstimator_Kalman.cpp:251-269 | the probation counter after a frame |
| PoseEstimator.BeaconBasedPoseEstimator.KalmanAutocalibEstimator | plugins/videobasedtracker/BeaconBasedPoseEstimator_Kalman.cpp:61-287 | counters, flags and LEDs after a Kalman pass; it always succeeds |
| PoseEstimator.BeaconBasedPoseEstimator.EstimatePoseFromLeds | plugins/videobasedtracker/BeaconBasedPoseEstimator.cpp:154-211 | which path is taken, whether it succeeds, and the whole new state of estimator and LEDs |
| PoseHistory.ModeHistory | plugins/videobasedtracker/BeaconBasedPoseEstimator.cpp:154-211 | after every history of calls a pose stands exactly when the latest estimate succeeded and no beacons or camera came since; it comes with a time stamp and a measurement; probation is at most 11; the counter of rejected frames is 0 |
| PoseHistory.KalmanPathIff | plugins/videobasedtracker/BeaconBasedPoseEstimator.cpp:183-194 | an estimate takes the Kalman path if and only if a pose stands, Kalman mode is permitted and no reset fires; its time step starts at the latest success |
| PoseHistory.ResetUsesSolver | plugins/videobasedtracker/BeaconBasedPoseEstimator.cpp:234-251 | every estimate in which a reset fires goes to the solver and ends with all counters 0; only probation and lost blobs can cause one |
| PoseHistory.BadPassesAccumulate | plugins/videobasedtracker/BeaconBasedPoseEstimator_Kalman.cpp:251-269 | the ratio that starts probation also prolongs it, frame by frame |
| PoseHistory.NoTwelveBadPasses | plugins/videobasedtracker/BeaconBasedPoseEstimator.cpp:46-48 | in no history do twelve estimates in a row stay on the Kalman path with a bad ratio |
| PoseCounters.ProbationIff | plugins/videobasedtracker/BeaconBasedPoseEstimator_Kalman.cpp:251-269 | outside probation, n estimates on the Kalman path bring the counter to n if and only if the first has fewer than three good LEDs for two bad ones and the others fewer than two for one |
| PoseCounters.GoodPassEndsProbation | plugins/videobasedtracker/BeaconBasedPoseEstimator_Kalman.cpp:258-266 | one estimate with two good LEDs for every bad one ends probation |
| PoseCounters.ElevenForceSolverIff | plugins/videobasedtracker/BeaconBasedPoseEstimator.cpp:213-217 | just such a sequence of eleven makes the next estimate use the solver |
| ProbationStreak.ElevenBadPasses | plugins/videobasedtracker/BeaconBasedPoseEstimator_Kalman.cpp:251-269 | eleven in a row do occur, in every configuration: a sensor whose LEDs are identified by their blinking makes them within thirteen frames |
| SensorCalls.RunIsHistory | plugins/videobasedtracker/VideoBasedTracker.cpp:215-229 | the estimator of a sensor goes through a history of calls, so what is shown over every history holds in every run |
| PoseHistory.StaysBlind | plugins/videobasedtracker/BeaconBasedPoseEstimator.cpp:218-233 | once blobs are lost, estimates that still see none stay on the Kalman path for good |
| PoseHistory.LostBlobsRecovered | plugins/videobasedtracker/BeaconBasedPoseEstimator.cpp:218-251 | after more than ten blind Kalman estimates, any number of further blind ones stay on Kalman and the first to see an identified LED uses the solver |
| PoseCounters.RecoversIff | plugins/videobasedtracker/BeaconBasedPoseEstimator.cpp:218-233 | after n estimates that see no LED of their own, the first that sees one again uses the solver if and only if n is more than ten |
| PoseCounters.SeeingStartsAnew | plugins/videobasedtracker/BeaconBasedPoseEstimator_Kalman.cpp:118-122 | an estimate on the Kalman path that sees an LED of its own starts the count anew |
| PoseCounters.OthersLeaveCounters | plugins/videobasedtracker/BeaconBasedPoseEstimator.cpp:165-211 | other calls, and the solver without a reset, leave the counters alone |
| PoseCounters.RejectedFramesCount | plugins/videobasedtracker/BeaconBasedPoseEstimator_Kalman.cpp:271-280 | what the counter of rejected frames does in any state, reachable or not |
| PoseCounters.FiftyRejectedAllowed | plugins/videobasedtracker/BeaconBasedPoseEstimator.cpp:213-217 | it would force the solver when it is more than fifty |
| PoseHistory.KalmanAccounting | plugins/videobasedtracker/BeaconBasedPoseEstimator_Kalman.cpp:78-249 | the identified LEDs in range are the bright-skipped, the oblique-skipped, the good and the bad, each counted once |
| PoseHistory.SkippingLeavesFive | plugins/videobasedtracker/BeaconBasedPoseEstimator_Kalman.cpp:113-117 | bright LEDs are skipped all or none, and only if at least five others remain |
| KalmanPass.WhatHappensTo | plugins/videobasedtracker/BeaconBasedPoseEstimator_Kalman.cpp:141-249 | on the Kalman path an LED that is looked at loses its ID if and only if its beacon faces away, is used if and only if the beacon faces the camera well enough, and is left alone otherwise |
| KalmanPass.SkipIff | plugins/videobasedtracker/BeaconBasedPoseEstimator_Kalman.cpp:113-117 | bright LEDs are not looked at if and only if that is configured and at least five LEDs that are not bright claim beacons |
| KalmanPass.Counts | plugins/videobasedtracker/BeaconBasedPoseEstimator_Kalman.cpp:170-224 | good are the LEDs that face the camera well with a small residual; bad are those that face it well with a large one and those that face away |
| KalmanPass.SolverLeavesAlone | plugins/videobasedtracker/BeaconBasedPoseEstimator.cpp:254-383 | the solver path touches no LED |
| KalmanPass.PairsBelong | plugins/videobasedtracker/BeaconBasedPoseEstimator.cpp:255-277 | the two lists for the solver are made of the same LEDs, all those that claim a beacon, in their order |
| ReprojectionCheck.AcceptedAreCloseIff | plugins/videobasedtracker/BeaconBasedPoseEstimator.cpp:280-354 | whatever the solver reports within its bound, an accepted solution has all its inliers within 4 pixels on both axes: this holds if and only if there are no points, or fewer than are needed to accept any |
| ReprojectionCheck.CloseAreAcceptedIff | plugins/videobasedtracker/BeaconBasedPoseEstimator.cpp:280-354 | with points enough, every report of enough inliers, all of them close, is accepted: this holds if and only if there is at most one point, or just as many as inliers are required |
| ReprojectionCheck.LeftErrorAccepted | plugins/videobasedtracker/BeaconBasedPoseEstimator.cpp:344-354 | for every large enough set of points, an accepted report all of whose inliers are 6 pixels too far left |
| ReprojectionCheck.NamedInlierUnchecked | plugins/videobasedtracker/BeaconBasedPoseEstimator.cpp:332-338 | and one with a named inlier beyond the first rows that is 6 pixels too far right |
| ReprojectionCheck.OutlierTurnsDown | plugins/videobasedtracker/BeaconBasedPoseEstimator.cpp:332-354 | and a converged report of enough inliers, all reprojecting exactly, that is turned down |
| ReprojectionCheck.CheckIsOneSided | plugins/videobasedtracker/BeaconBasedPoseEstimator.cpp:344-354 | the check itself puts no bound on errors to the left and upwards |
| PoseOrigin.AcceptedIsSupported | plugins/videobasedtracker/BeaconBasedPoseEstimator.cpp:280-354 | an accepted solution has enough points, converged, names the required number of distinct ones among them, and passes the check on the first points |
| PoseOrigin.TooFewTurnedDown | plugins/videobasedtracker/BeaconBasedPoseEstimator.cpp:280-326 | a report of too few inliers or on too few points, or that did not converge, is turned down whatever else it says |
| PoseOrigin.PoseHasOrigin | plugins/videobasedtracker/BeaconBasedPoseEstimator.cpp:154-211 | after every history a pose that stands was set up by such a solution, and only estimates on the Kalman path and changes of permission came since |
| PoseHistory.FlagsMatchIff | plugins/videobasedtracker/BeaconBasedPoseEstimator.cpp:70-84 | exactly when the fixed flags after `SetBeacons` are those given |
| PoseHistory.VariancesMatchIff | plugins/videobasedtracker/BeaconBasedPoseEstimator.cpp:85-94 | exactly when a single variance reaches all beacons |
| PoseHistory.DirectionsAndVariances | plugins/videobasedtracker/BeaconBasedPoseEstimator.cpp:85-100 | every beacon has the direction given for it, and of a list of variances the one given for it, or 3 when the list is too short |
| PoseHistory.SecondCallKeepsOldTables | plugins/videobasedtracker/BeaconBasedPoseEstimator.cpp:70-94 | two calls after which flag and variance are still those of the first |
| VideoTracker.VideoBasedTracker.AddSensor | plugins/videobasedtracker/VideoBasedTracker.cpp:49-61 | the parallel containers grow together, a new estimator and an empty list join them, and the sensors that were there stay as they are; it throws if and only if the beacon lists differ in length |
| VideoTracker.VideoBasedTracker.EraseUnmatched | plugins/videobasedtracker/VideoBasedTracker.cpp:185-205 | the loop that erases from LEDs and measurements ends with the survivors and left-over blobs of the matching |
| VideoTracker.VideoBasedTracker.AppendNew | plugins/videobasedtracker/VideoBasedTracker.cpp:206-213 | one new LED per left-over blob goes to the end of the list, in the order of the blobs |
| VideoTracker.VideoBasedTracker.UpdateLedGroup | plugins/videobasedtracker/VideoBasedTracker.cpp:183-214 | the LED list after the block: survivors in order, then one new LED per left-over blob; old LEDs are reused and none is shared |
| VideoTracker.VideoBasedTracker.MatchAndEstimate | plugins/videobasedtracker/VideoBasedTracker.cpp:183-229 | matching and estimating take one sensor's LEDs and estimator to the states that the step says, without sharing an LED |
| VideoTracker.VideoBasedTracker.ProcessSensor | plugins/videobasedtracker/VideoBasedTracker.cpp:169-229 | one sensor makes its step and every other sensor's LEDs and estimator stay as they are |
| VideoTracker.VideoBasedTracker.ProcessImage | plugins/videobasedtracker/VideoBasedTracker.cpp:153-229 | every sensor makes one step on the same blobs, and the poses reported are those of the estimates that succeeded |
| TrackerSession.SetUp | plugins/videobasedtracker/com_osvr_VideoBasedHMDTracker.cpp:357-370 | adding sensors to a new tracker leaves each as it was configured, unless one is not accepted |
| TrackerSession.ProcessAll | plugins/videobasedtracker/com_osvr_VideoBasedHMDTracker.cpp:189-203 | processing images one after the other takes the tracker to where the runs of its sensors lead |
| TrackerSession.Track | plugins/videobasedtracker/VideoBasedTracker.cpp:45-229 | a whole session, from the constructor on, ends in the states of the run |
| TrackerSession.SessionIdentifies | plugins/videobasedtracker/VideoBasedTracker.cpp:165-229 | after a session on a shared scene the LED objects of every sensor hold their lights' blobs and carry the IDs of its own beacons and no others |
| SensorHistory.FrameConservesBlobs | plugins/videobasedtracker/VideoBasedTracker.cpp:183-229 | after a whole frame, estimate included, each blob is held by exactly one LED |
| SensorHistory.UsedIffCorrected | plugins/videobasedtracker/VideoBasedTracker.cpp:188 | after a frame an LED's used flag is set if and only if it supplied a correction in that frame |
| SensorHistory.CarriedIdsBlink | plugins/videobasedtracker/HDKLedIdentifier.cpp:68-143 | over every run of a sensor on any blobs, every ID carried names an enabled pattern with both symbols |
| Blinking.WindowShowsCode | plugins/videobasedtracker/HDKLedIdentifier.cpp:103-126 | a window in which a code shows both symbols, dim and bright apart by more than the least spread within this window, thresholds to what the code shows |
| Blinking.BeaconReads | plugins/videobasedtracker/HDKLedIdentifier.cpp:91-148 | a full window of a beacon decodes to its ID when no other pattern is a rotation of its code; the level may drift from window to window |
| Blinking.ForeignReads | plugins/videobasedtracker/HDKLedIdentifier.cpp:124-147 | a full window of a code that is no rotation of any pattern decodes to none |
| Blinking.SteadyReads | plugins/videobasedtracker/HDKLedIdentifier.cpp:103-114 | a full window of a light that does not blink is told from a beacon's |
| Blinking.AlienIffNoRotation | plugins/videobasedtracker/HDKLedIdentifier.cpp:128-143 | a blinking code as long as the patterns is foreign to a table if and only if it is a rotation of none of its enabled patterns |
| Identification.ObserveTracks | plugins/videobasedtracker/LED.cpp:38-72 | a further sample of its own light keeps an LED right, whatever the keep-ID setting |
| Identification.StaysOnTrack | plugins/videobasedtracker/VideoBasedTracker.cpp:183-229 | the invariant of every run: LEDs and lights correspond, each LED retains the samples its age says |
| Identification.IdentifiesBeacons | plugins/videobasedtracker/VideoBasedTracker.cpp:153-229 | end to end, with lights of all kinds in view: after every frame there is one LED per light, holding its blob; a beacon's LED has the beacon's ID if and only if it has had a full window of samples since it was created or last refuted; foreign and steady lights have none |
| Identification.AllIdentifiedAfterFirstWindow | plugins/videobasedtracker/VideoBasedTracker.cpp:165-214 | if nothing is refuted, from the frame that completes the first window on every beacon's LED carries its ID |
| SharedScene.RecognisableIff | plugins/videobasedtracker/VideoBasedTracker.cpp:165-168 | with codes of one length, a code identifies its sensor's beacon for all sensors if and only if it blinks and is a rotation of no other enabled pattern of any table |
| SharedScene.EachIdentifiesItsOwn | plugins/videobasedtracker/VideoBasedTracker.cpp:165-229 | several sensors in one scene, over every run: each has one LED per light, identifies exactly its own beacons, and never gives an ID to a beacon of another sensor or to a steady light |
| PassingLight.IdentifiedInPassing | plugins/videobasedtracker/VideoBasedTracker.cpp:183-229 | whatever other lights come and go: from the frame a light appears in, or is refuted in, an LED holds its blob as long as it is in view and unrefuted, and carries the beacon's ID if and only if that has lasted a full window; a light that is no beacon gets no ID |
| SharedPassage.EachIdentifiesInPassing | plugins/videobasedtracker/VideoBasedTracker.cpp:165-229 | the same with several sensors: only the one whose beacon it is gives it an ID |
| ExamplePassage.ExampleFits | plugins/videobasedtracker/VideoBasedTracker.cpp:183-214 | passages of every length meet the conditions, in every configuration, with another light that comes and goes |
| ExampleScene.ExampleIsClear | plugins/videobasedtracker/VideoBasedTracker.cpp:165-229 | the conditions of that result can be met, by scenes of every length and under every configuration: two sensors, three beacons and a steady light that move and grow brighter all the time |
| ImagePoint.ImagePointMeasurement.UpdateFromState | plugins/videobasedtracker/ImagePointMeasurement.h:67-78 | all cached values are those of the state, and nothing else changes |
| ImagePoint.ImagePointMeasurement.SetVariance | plugins/videobasedtracker/ImagePointMeasurement.h:263-267 | only a positive value is taken over, so a positive variance stays positive |
| ImagePoint.ResidualZeroIff | plugins/videobasedtracker/ImagePointMeasurement.h:79-87 | the residual is zero if and only if the measurement lies on the ray of the beacon |
| ImagePoint.AxisProjects | plugins/videobasedtracker/ProjectPoint.h:42-50 | a point on the optical axis projects to the principal point |
| ImagePoint.PointMoves | plugins/videobasedtracker/ImagePointMeasurement.h:67-78 | where the camera-space point goes when the pose moves and turns and the beacon moves, exactly, the second-order part of turning and moving at once included |
| ImagePoint.RotationBlockLinear | plugins/videobasedtracker/ImagePointMeasurement.h:138-162 | the rotation block is the linear part of the projection's change under a small rotation of the rotated beacon |
| ImagePoint.BeaconBlockLinear | plugins/videobasedtracker/ImagePointMeasurement.h:90-113 | the beacon block is the linear part of the projection's change under a move of the beacon |
| ImagePoint.JacobianLinear | plugins/videobasedtracker/ImagePointMeasurement.h:244-261 | the whole Jacobian is the linear part of the projection's change |
| ImagePoint.JacobianExact | plugins/videobasedtracker/ProjectPoint.h:42-50 | for every change that moves the point by D, the change of the projection times the new depth is the Jacobian applied to it times the old depth, on both axes |
| ImagePoint.ResidualExact | plugins/videobasedtracker/ImagePointMeasurement.h:79-87 | the change of the residual with the moved state times the new depth is what the Jacobian makes of the change, and of the second-order part, times the old depth |
| ImagePoint.ResidualExactAlone | plugins/videobasedtracker/ImagePointMeasurement.h:79-87 | when the pose turns or the beacon moves, but not both, the Jacobian alone tells the change exactly |
| Endianness.GenericByteSwap | inc/osvr/Common/IntegerByteSwap.h:134-143 | the copying loop reverses the bytes |
| Endianness.ImageOfHton | inc/osvr/Common/Endianness.h:97-106 | on either kind of host the converted integer lies in memory in network order |
| Endianness.MostSignificantFirst | inc/osvr/Common/Endianness.h:97-106 | network order puts the most significant byte first, at every width |
| Endianness.HtonIntInvolutive | inc/osvr/Common/Endianness.h:95-107 | converting an integer of any width twice gives it back, on either kind of host |
| Endianness.TypePunImage | inc/osvr/Common/Endianness.h:85-127 | punning through an integer reverses the memory image or leaves it alone |
| Endianness.HtonDoubleInvolutive | inc/osvr/Common/Endianness.h:149-174 | converting a double twice gives it back, mixed word order included |
| Endianness.DoubleWireFormat | inc/osvr/Common/Endianness.h:149-174 | every kind of host puts the same eight bytes on the wire |
| WireBuffer.AlignmentPadding | inc/osvr/Common/AlignmentPadding.h:49-65 | less than the alignment, and just what reaches a multiple of it; none for alignments below 2 |
| WireBuffer.Buffer.Append | inc/osvr/Common/Buffer.h:234-241 | the buffer grows by the item's bytes |
| WireBuffer.Buffer.AppendPadding | inc/osvr/Common/Buffer.h:269-274 | the buffer grows by zero bytes |
| WireBuffer.Buffer.AppendAligned | inc/osvr/Common/Buffer.h:248-252 | the buffer grows by padding and then the item's bytes |
| WireBuffer.BufferReader.Read | inc/osvr/Common/Buffer.h:128-140 | yields the next bytes and advances, or throws and stays |
| WireBuffer.BufferReader.ReadBytes | inc/osvr/Common/Buffer.h:144-152 | yields where the next bytes begin and advances, or throws and stays |
| WireBuffer.BufferReader.SkipPadding | inc/osvr/Common/Buffer.h:173-182 | advances over padding, or throws and stays |
| WireBuffer.BufferReader.ReadAligned | inc/osvr/Common/Buffer.h:157-160 | skips padding and reads; when only the read throws the padding is gone |
| WireBuffer.BufferReader.ReadBytesAligned | inc/osvr/Common/Buffer.h:165-169 | the same for a run of bytes |
| WireBuffer.EmitAllExtends | inc/osvr/Common/Buffer.h:234-274 | no append changes bytes already there |
| WireBuffer.AlignedStart | inc/osvr/Common/Buffer.h:248-252 | an aligned item begins at a multiple of its alignment after fewer zero bytes than that |
| WireBuffer.RoundTrip | inc/osvr/Common/Buffer.h:117-274 | any sequence of appends to an empty buffer is read back by the same sequence of reads: none throws, the values return, the whole buffer is consumed |
| WireBuffer.ThrowsIffShort | inc/osvr/Common/Buffer.h:128-182 | a sequence of reads throws if and only if the data ends before the reads do |
| WireBuffer.ThrowConsumes | inc/osvr/Common/Buffer.h:128-182 | a read that throws has consumed nothing but, at most, the padding before an aligned item, and all that is left can still be read |
| WireBuffer.AlignedThrowIff | inc/osvr/Common/Buffer.h:157-182 | an aligned read throws if and only if the item does not fit behind its padding; the padding is consumed if and only if it fits |
| WireBuffer.TruncatedThrows | inc/osvr/Common/Buffer.h:128-182 | a buffer that lost any of its last bytes cannot be read to the end |
| WireBuffer.NumberCrosses | inc/osvr/Common/SerializationTraits.h:301-313 | a serialized integer or double has the same bytes on every host, and any host reads it back |
| WireBuffer.NumbersCross | inc/osvr/Common/SerializationTraits.h:295-334 | the same for whole messages of integers of mixed widths and doubles, between hosts of either byte order with or without mixed doubles |
| TransformLevels.RemoveLevels | apps/RecomposeTransform.h:40-59 | the two loops compute the filtering that the lemmas characterise; on a value that is neither an object nor null the JSON library throws |
| TransformLevels.PushLevels | apps/RecomposeTransform.h:44-50 | the first loop collects the kept levels and ends at the innermost one |
| TransformLevels.PopLevels | apps/RecomposeTransform.h:51-57 | the second loop nests them again in their order |
| TransformLevels.RemoveFilters | apps/RecomposeTransform.h:36-59 | what is left, level by level, is what the predicate rejects, in order and otherwise unchanged; the innermost level always stays |
| TransformLevels.RemoveTwice | apps/RecomposeTransform.h:40-59 | removing by one predicate and then by one that ignores the child removes by either |
| TransformLevels.RemoveIdempotent | apps/RecomposeTransform.h:40-59 | for a predicate that ignores the child, removing again changes nothing |
| TransformLevels.UnchangedIff | apps/RecomposeTransform.h:40-59 | a value stays as it is if and only if the predicate holds of none of its levels |
| TransformLevels.CalibrationIgnoresChild | apps/osvr_calibrate.cpp:78-82 | the calibration predicate ignores the child, so the laws apply to it |
| TransformLevels.ToolLayersArePruned | apps/osvr_calibrate.cpp:78-82 | the layers that the tool makes are pruned as calibration layers, and a layer is pruned only if its member is true |
| TransformLevels.WrapAddsLevel | apps/WrapRoute.h:38-45 | wrapping adds one level around the source, with everything the new layer holds, and keeps all others |
| TransformLevels.CalibrateTwice | apps/osvr_calibrate.cpp:154-210 | calibrating a second time gives what calibrating only then would have given |
| TransformLevels.PruneUndoesWrap | apps/osvr_calibrate.cpp:154-210 | pruning the source of a pruned and freshly wrapped route gives the whole route back if and only if what was pruned first is an object |
| TransformLevels.NullKeepsItsLayer | apps/osvr_calibrate.cpp:154-210 | the input for which it fails: the layer wrapped around null stays however often the source is pruned |

## Left out

- The inner workings of OpenCV and Eigen: blob extraction and undistortion yield the blobs, the RANSAC solver reports convergence, inlier indices and reprojected points, and the predicted rotation arrives as a matrix or its last row; all are arbitrary inputs.
- The Kalman filter's predict and correct steps: the residual of each LED at its turn is an arbitrary input, so nothing is said about how corrections influence each other. The pose itself and its prediction in time are not part of this model.
- PoseEstimator.BeaconBasedPoseEstimator.SetBeacons: leaves out the beacons' positions and error covariances, their centroid and the debug array, which only feed the filter.
- PoseEstimator.BeaconBasedPoseEstimator.SetCameraParameters: leaves out the stored camera parameters, which only the solver and the filter read.
- PoseEstimator.BeaconBasedPoseEstimator.ForceRansacIfKalmanNeedsReset: leaves out that the filter's state vector is zeroed.
- PoseEstimator.BeaconBasedPoseEstimator.PnpRansacEstimator: leaves out the pose that the solver found and the filter state set from it.
- PoseEstimator.BeaconBasedPoseEstimator.CollectImagePoints: gives beacon IDs for the beacons' positions, and leaves out the debug entries.
- PoseEstimator.BeaconBasedPoseEstimator.CorrectFromLed: leaves out the effective variance, the prediction of the beacon and the correction itself.
- PoseEstimator.BeaconBasedPoseEstimator.CorrectFromLeds: leaves out how one correction changes the next residual.
- PoseEstimator.BeaconBasedPoseEstimator.KalmanAutocalibEstimator: leaves out the filter state and the vectors kept for the debug view.
- PoseEstimator.BeaconBasedPoseEstimator.EstimatePoseFromLeds: leaves out the pose that is output.
- VideoTracker.VideoBasedTracker.AddSensor: leaves out the stored camera parameters and beacon adders other than `SetBeacons`.
- VideoTracker.VideoBasedTracker.ProcessImage: leaves out blob extraction, the poses handed to the handler and all drawing.
- ImagePoint.ImagePointMeasurement.UpdateFromState: leaves out the two cached rotations that only the disabled variants of the rotation block read.
- Identification.IdentifiesBeacons: supposes that every light is in view in every frame; `PassingLight.IdentifiedInPassing` does not, and asks instead that the blob of the light in question is in the reach of its own LED only.
- TrackerSession.ProcessAll: the loop stands for the host's main loop, which calls `processImage` once per image.
- Rounding: brightnesses, coordinates and times are reals. Counters are naturals and never overflow.
- Area, circularity and bounding box of a blob, and the `nearest` overload for key points: they do not enter the modelled logic.
- Debug data, log output, windows, key handling and file dumps.
- Clocks: an estimate is given its time stamp.
- VideoTracker.VideoBasedTracker.EraseUnmatched: builds the list of kept LEDs where the source erases list nodes in place; LEDs themselves are the same objects before and after, but iterators into the list are not modelled.
- Endianness.IntegerByteSwap: stands for the compiler intrinsics as well as for the generic loop; that the intrinsics reverse bytes is not shown. Signed integers are taken by their memory image.
- Quaternion exponentials: a small rotation is the matrix one plus the cross product, which is what a Jacobian sees.
- WireBuffer.BufferReader.ReadBytes: returns an index for the iterator of the source; the data does not change while it is read.
- Serialization of strings, booleans and enumerations, and message headers: they add nothing to the round trip of byte runs and aligned values.
- JSON parsing and route submission: the model starts at the parsed value.
- Tables of patterns and beacon positions of particular headsets: finite data; the lemmas hold for every table.
- Plugin registration, the C and C++ client interfaces, image sources and HID code.
