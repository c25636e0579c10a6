# Camera tracking pipeline: a verified model

This Dafny 4.11 project models the inference path of the camera tracking system and the protocol around it, and proves
what that path promises: the three-stage tracker and its Kalman filter, non-maximum suppression and decoding, the
dynamic batcher, the per-camera worker, the re-identification gallery, the broker, the event table, and the rate-capped
camera reader. `dafny verify dfyconfig.toml` checks everything.

## How it is built

Each part has a description on values (functions over sequences, maps and records that take the code's branches with
the code's constants), theorems about that description, and, where the program updates objects in place, classes and
loops proved to compute exactly that description.

| part | values and theorems | objects and loops |
|---|---|---|
| IoU, assignment, matching | `Boxes.dfy`, `Assignment.dfy`, `Matching.dfy` | `Matching.dfy` (loops of `match_by_iou`) |
| Kalman filter | `LinearAlgebra.dfy`, `Kalman.dfy`, `KalmanOptimality.dfy`, `DenseKalman.dfy`, `BoxFilter.dfy` | `BoxFilter.dfy` (`BoxKalmanFilter`) |
| tracker | `Tracks.dfy`, `Tracker.dfy`, `Frame.dfy`, `StageThree.dfy`, `Lifecycle.dfy`, `TrackerRuns.dfy`, `Conservation.dfy`, `FrameMatches.dfy`, `TrackStories.dfy` | `TrackerObject.dfy` (`STrack`, `ByteTracker`, `TrackIdAllocator`) |
| suppression and decoding | `Nms.dfy`, `Detector.dfy` | the loops in the same files, `OnnxYoloDetector` |
| batcher | `Batcher.dfy`, `BatcherTiming.dfy` | `Batcher.dfy` (`DynamicBatcher`) |
| worker | `Worker.dfy`, `WorkerTeam.dfy`, `WorkerBatches.dfy`, `WorkerOutput.dfy` | `WorkerObject.dfy` (`InferenceWorker`) |
| re-identification | `Gallery.dfy`, `GalleryLog.dfy`, `GalleryPlaces.dfy`, `GalleryHeld.dfy`, `GalleryRuns.dfy`, `GalleryIdentities.dfy`, `GalleryTraps.dfy`, `GallerySchedules.dfy`, `GalleryEvents.dfy`, `Cosine.dfy` | `GalleryObject.dfy` (`CrossCameraMatcher`) |
| broker, table, pipeline | `Broker.dfy`, `Storage.dfy`, `Pipeline.dfy`, `PipelineOrder.dfy`, `Redelivery.dfy` | `Broker.dfy` (`RedisStreamsBroker`), `Storage.dfy` (`TimeSeriesWriter`) |
| camera reader | `Reader.dfy` | `Reader.dfy` (`RtspFrameReader`) |

`Wrappers.dfy`, `Collections.dfy` and `RealFacts.dfy` hold shared types, helpers on positions, and small facts about real
numbers.

Foreign numerical routines are parameters constrained by their contract, and every theorem holds for every routine that
meets it. The assignment solver (`Assignments.Solver`) returns a complete assignment of least cost; a verified exhaustive
search shows that such solvers exist. The ranking behind the descending sort (`Suppression.Ranking`) is any descending
permutation, with a verified insertion sort as witness. The matrix inverse (`LinearAlgebra.Inverter`) inverts every
invertible matrix. The square root and the vector norm are functions whose value squares to their argument at
the points used. The detector is any function of one image. Clocks, arrivals, failures and generated ids are inputs.

## Where the code and its comments differ

- The comment on stage 3 (`src/inference/tracker.py:218-220`) says it prevents duplicate identities. It never matches
  anything: whatever stage 1 left over overlaps by less than 0.6, and stage 3 asks for 0.7
  (`StageThreeIdle.StageThreeIsIdle`).
- The docstring of `update` speaks of two assignment solves; the code runs three, and
  `StageThreeIdle.ThreeStagesAreTwo` shows that two give the same tracker.
- `MessageBroker.ack` (`src/streaming/base.py:54-61`) promises redelivery after a visibility timeout; the Redis backend
  has no such step (`src/streaming/redis_streams.py:79-83`), so redelivery is a step of the environment in `Pipelines`.
  Without it a delivered frame can still be acknowledged exactly while a worker whose batch thread runs holds it
  (`Redelivery.AckableIffServed`), and an event exactly while some writer holds it (`Redelivery.EventAckableIffHeld`); a
  crash after a read strands what was read (`Redelivery.CrashStrandsFrame`, `Redelivery.CrashStrandsEvent`).
- `run_forever` reads on whatever happens to the batcher's thread (`src/inference/worker.py:85-99`,
  `src/inference/batcher.py:79-123`). One missing image (`src/inference/frame_loader.py:33-35`), a publish that fails
  for good or a failing `ack` ends that thread, and every frame the process reads from then on, until it is restarted,
  can be acknowledged by nobody (`Redelivery.DeadWorkerStrands`; `Redelivery.FailedPublishStrands` is such a run).
- A batch whose images cannot all be loaded has no effect at all, so batching is then transparent exactly if the first
  missing image is that of the first frame of its batch (`WorkerBatches.TransparentIffFailsAtHead`).
- The matcher reads a wall clock by default (`src/reid/cross_camera_matcher.py:61`), which may step back. Its bounded
  galleries then answer a zone's calls as the log, whatever is sighted, exactly when the readings are safe: no call finds
  young a sighting that an earlier call of the zone found too old, and no call finds young a sighting that five later
  ones covered while one of the five is now too old. This holds for every similarity at once
  (`GallerySchedules.AgreesExactlyWhenSafe`) and for the cosine alone, on embeddings of any two or more components
  (`GallerySchedules.CosineAgreesExactlyWhenSafe`). A clock that does not go back is safe; 10, 0 is safe too; 0, 400, 10
  is not, nor is 100, five times 0, 350.
- The allocator's ids are called globally unique (`src/inference/tracker.py:267-274`). They are unique per worker and
  camera; with frames split over several workers (`src/inference/worker.py:6-11`) two tracks of a camera share an id
  exactly if two workers each got a frame of it with a high-confidence detection (`WorkerTeams.SharedIdsIffSplit`).
- Box to measurement to box is the identity exactly when both sides exceed 1e-6 or the box is a point
  (`BoxFilters.MeasurementRoundTrip`); thinner boxes do not come back.

## Model

| member | source | states |
|---|---|---|
| Boxes.IouRange | src/inference/tracker.py:37-61 | IoU lies in [0, 1] and is symmetric for all boxes, inverted ones included |
| Boxes.IouOne | src/inference/tracker.py:44-61 | IoU is 1 exactly between identical boxes of positive width and height |
| Boxes.MatrixAgreesWithVector | src/inference/detector.py:179-192 | every row of the tracker's IoU matrix is the detector's IoU vector for that row's box |
| Boxes.IouScaleInvariant | src/inference/detector.py:259-276 | scaling both boxes by the same positive factor per axis leaves their IoU unchanged |
| Boxes.IouIsAreaRatio | src/inference/tracker.py:44-61 | for two boxes whose common points form a third box, IoU is that box's area over the rest of their two areas, areas being products of sides |
| Boxes.IouIsPositiveInside | src/inference/detector.py:184-192 | IoU is positive exactly if some point is inside both boxes, so it is 0 for inverted ones; then the common points form a box |
| Assignments.AllPartialIsExact | src/inference/tracker.py:82-84 | the exhaustive search visits exactly the partial assignments |
| Assignments.EnumerationIsOptimal | src/inference/tracker.py:82-84 | the solver contract can be met: the search's answer is complete and of least cost |
| Assignments.SolverMaximises | src/inference/tracker.py:82-84 | minimising the negated matrix maximises total IoU among complete assignments |
| Assignments.BoundsPartial | src/inference/tracker.py:82-84 | with non-negative weights the optimum bounds every partial assignment too |
| Matching.MatchByIou | src/inference/tracker.py:64-98 | the loops return the pairs of the thresholded optimal assignment and the ascending lists of both kinds of leftovers, for empty sides as well |
| Matching.ResultsPartition | src/inference/tracker.py:86-98 | matches, free tracks and free detections partition both index ranges; no index is matched twice |
| Matching.MatchesAreSound | src/inference/tracker.py:86-93 | every match reaches the threshold, and exchanging the detections of two matches raises no total |
| Matching.LeftoversBarelyOverlap | src/inference/tracker.py:64-98 | a track and a detection both left over overlap by less than twice the threshold |
| Matching.KeptIsNearOptimal | src/inference/tracker.py:64-98 | any partial matching's total is at most the kept total plus the threshold times the number of filtered pairs |
| AxisFilters.GainInUnitInterval | src/inference/kalman.py:86-93 | the gain on a measured component is strictly between 0 and 1 |
| AxisFilters.PredictKeepsDefinite | src/inference/kalman.py:78-84 | prediction keeps a position-velocity block positive definite |
| AxisFilters.UpdateKeepsDefinite | src/inference/kalman.py:86-93 | an update keeps a block positive definite and brings the measured variance below the noise |
| LeastVariance.PredictIsMotion | src/inference/kalman.py:78-84 | a prediction adds the velocity to the position, and carries the variance of every combination of the two over the same motion, plus process noise 1 and 0.01 |
| LeastVariance.UpdateIsBest | src/inference/kalman.py:86-93 | an update corrects position and velocity by gains that no others beat: the variance it states for any combination of the two is the least any gains give |
| LeastVariance.LevelUpdateIsBest | src/inference/kalman.py:86-93 | the same for the aspect ratio, which has no velocity |
| DenseFilter.PredictEmbedded | src/inference/kalman.py:78-84 | one 7x7 prediction, guard included, equals one prediction of each small filter |
| DenseFilter.UpdateEmbedded | src/inference/kalman.py:86-93 | one 7x7 update, whatever inverse is used, equals one update of each small filter |
| DenseFilter.InnovationIsDiagonal | src/inference/kalman.py:88-90 | the innovation covariance is diagonal with positive entries |
| BoxFilters.RunIsBlockwise | src/inference/kalman.py:56-93 | on every run the dense filter is three two-dimensional filters and one scalar filter |
| BoxFilters.CovarianceOnRuns | src/inference/kalman.py:56-93 | on every run P is symmetric, keeps its block shape, and every block is positive definite |
| BoxFilters.InnovationOnRuns | src/inference/kalman.py:86-93 | on every run the matrix the code inverts is invertible |
| BoxFilters.VarianceAfterUpdate | src/inference/kalman.py:86-93 | after any update each measured variance is below its measurement noise |
| BoxFilters.AreaAndRatioOnRuns | src/inference/kalman.py:78-93 | on every run the area is never negative; on well-formed boxes area and aspect ratio stay positive |
| BoxFilters.MeasurementRoundTrip | src/inference/kalman.py:22-45 | decoding an encoded box gives it back iff both sides exceed 1e-6 or both are zero |
| BoxFilters.DecodedBoxIsOrdered | src/inference/kalman.py:34-45 | every decoded box is ordered and keeps the state's centre |
| BoxFilters.MeasurementSays | src/inference/kalman.py:22-31 | the measurement of a box is its centre, its area and its width over its height, with 0 for the area of an inverted box and for the ratio of a flat one |
| BoxFilters.DecodedBoxSays | src/inference/kalman.py:34-45 | a decoded box has the state's centre, area and aspect ratio, or no width or no height where the code cuts off |
| BoxFilters.BoxKalmanFilter.Predict | src/inference/kalman.py:78-84 | the object's prediction, with its velocity guard, is the dense prediction |
| BoxFilters.BoxKalmanFilter.Update | src/inference/kalman.py:86-93 | the object's update is the dense update with the encoded box |
| Frames.LowMatchIsPartial | src/inference/tracker.py:205-215 | stage 2 gives no detection twice and touches no track of stage 1 |
| StageThreeIdle.LeftoverOverlap | src/inference/tracker.py:193-204 | whatever stage 1 left over on both sides overlaps by less than 0.6 on predicted boxes |
| StageThreeIdle.StageThreeIsIdle | src/inference/tracker.py:217-239 | stage 3 changes no track, matches nothing and hands on every leftover detection |
| StageThreeIdle.ThreeStagesAreTwo | src/inference/tracker.py:169-264 | update with three stages computes the same tracker as its two-stage form |
| StageThreeIdle.NewcomersAreApart | src/inference/tracker.py:248-252 | a detection that starts a track overlaps every predicted box left over by stage 1 by less than 0.6 |
| Trackers.SurvivorsArePicked | src/inference/tracker.py:254-262 | the clean-up keeps exactly the tracks neither removed nor unmatched for more than 30 frames, in order |
| Trackers.HighOfIs | src/inference/tracker.py:181-182 | the high-confidence detections are those of at least 0.6, each once, in the frame's order |
| Trackers.LowOfIs | src/inference/tracker.py:183-188 | the low-confidence detections are those from 0.1 to below 0.6, each once, in the frame's order |
| FrameMatches.UpdatesAreMatches | src/inference/tracker.py:191-239 | what updates two tracks in a frame are detections at two positions of the frame, each overlapping its track's predicted box by 0.3 if of high confidence and else by 0.5 |
| FrameMatches.LowLeftoversDiffer | src/inference/tracker.py:205-216 | a track without an update and a low-confidence detection that stage 2 leaves over do not coincide on the predicted box |
| Lifecycle.LifeAgreesWithHistory | src/inference/tracker.py:101-140 | the incremental counters and states agree with the match history: alive iff held, state from hits and trailing misses, hits plus misses at most age |
| Lifecycle.SurvivesMisses | src/inference/tracker.py:135-140 | after k more misses a track is held iff it has three hits and at most 30 trailing misses |
| TrackerRuns.RunIsConsistent | src/inference/tracker.py:169-264 | on every run the live tracks carry the counters of their histories and every other track is dropped for good |
| TrackerRuns.LiveIffHeld | src/inference/tracker.py:254-262 | after every run the track with counter c is live iff its match history is held |
| TrackerRuns.LiveCounters | src/inference/tracker.py:101-140 | after every run a live track's id, hits, age, misses and state follow from its history |
| TrackerRuns.AfterEmptyFrames | src/inference/tracker.py:244-262 | after k empty frames exactly the tracks with three hits and misses plus k at most 30 are live |
| TrackerRuns.NoneAfterLongGap | src/inference/tracker.py:244-262 | after 31 empty frames no track is left |
| TrackerRuns.LiveIdsDiffer | src/inference/tracker.py:276-282 | different live tracks have different ids |
| TrackerRuns.NewIdsAreNew | src/inference/tracker.py:248-252 | an id given now differs from every id given so far, live or dropped |
| TrackStories.LiveTracksTell | src/inference/tracker.py:104-124 | after every run a live track's filter is the run of its creating detection, one prediction per frame since and one correction by each detection that updated it; its confidence is its latest detection's, its class the first one's, and all of them are detections of the run's frames |
| TrackStories.PublishedTracksShow | src/inference/tracker.py:142-159 | every field of every track that update returns is the one its story and its match history give |
| TrackIds.SplitAtLastDash | src/inference/tracker.py:280-282 | an id splits at its last dash into the camera id and the decimal counter |
| TrackIds.FormatInjective | src/inference/tracker.py:280-282 | equal ids come from the same camera and the same counter |
| TrackIds.DecimalDenotes | src/inference/tracker.py:280-282 | the counter is written as the decimal numeral that denotes it, without leading zeros |
| Conservation.HighDetectionPlacedOnce | src/inference/tracker.py:193-252 | each high-confidence detection updates exactly one track, or is exactly one of the detections from which the three stages spawn a track; never both |
| Conservation.LowDetectionPlacedAtMostOnce | src/inference/tracker.py:205-216 | each low-confidence detection updates at most one track, only one left over by stage 1, and starts none |
| Conservation.NoiseIsIgnored | src/inference/tracker.py:181-189 | detections below 0.1 do not influence the tracker |
| Conservation.HitsAreConserved | src/inference/tracker.py:181-264 | over every run the hit counters of the live tracks and of the deleted records, as they were when deleted, add up to the detections accepted |
| Conservation.CountersAreHits | src/inference/tracker.py:254-262 | at the clean-up of any frame of a run the hit counter of every track, deleted or kept, is the number of hits in its history |
| TrackerObjects.TrackIdAllocator.NextId | src/inference/tracker.py:276-282 | the allocator counts up by one and formats camera and counter |
| TrackerObjects.STrack.MarkMatched | src/inference/tracker.py:119-133 | the object's match is the value-level match: filter, hits, state, confidence |
| TrackerObjects.STrack.MarkUnmatched | src/inference/tracker.py:135-140 | the object's miss is the value-level miss |
| TrackerObjects.ByteTracker.Update | src/inference/tracker.py:169-264 | the object's whole update computes the three-stage tracker and publishes every surviving track |
| Suppression.GreedyIsNms | src/inference/detector.py:195-215 | a box is kept iff no earlier kept box overlaps it above the threshold |
| Suppression.NmsIsUnique | src/inference/detector.py:195-215 | only one set of boxes satisfies that characterisation |
| Suppression.GreedyKeepsOrder | src/inference/detector.py:195-215 | kept indices come in the order of the scores |
| Suppression.KeptAreApart | src/inference/detector.py:207-215 | kept boxes are pairwise within the threshold |
| Suppression.DroppedHasSuppressor | src/inference/detector.py:207-215 | every dropped box has a kept box of at least its score that overlaps it above the threshold |
| Suppression.NmsIsIdempotent | src/inference/detector.py:195-215 | running again on the survivors keeps all of them in order |
| Suppression.NmsLoop | src/inference/detector.py:205-215 | the shrinking loop terminates and computes the greedy selection |
| Suppression.Nms | src/inference/detector.py:195-215 | the whole routine, for every descending order of the scores |
| Detectors.DecodeYoloOutput | src/inference/detector.py:218-277 | the loop decodes the kept candidates in order; nothing confident means an empty list |
| Detectors.DecodedAreApart | src/inference/detector.py:218-277 | decoded boxes are pairwise within the threshold in original-image coordinates |
| Detectors.DecodedFall | src/inference/detector.py:218-277 | decoded detections come in non-increasing confidence, all at or above the threshold |
| Detectors.ConfidentIs | src/inference/detector.py:240-250 | the mask keeps exactly the candidates at or above the threshold, each once, in the model's order |
| Detectors.DecodedFromCandidate | src/inference/detector.py:252-277 | each decoded detection lies where a candidate of the output says, times the scale of each axis, and carries its first best class, that class's score and name or number, and the image's ids |
| Detectors.CandidatesAreAccounted | src/inference/detector.py:218-277 | every confident candidate is output or overlapped by an output one at least as confident |
| Detectors.OnnxYoloDetector.DetectBatch | src/inference/detector.py:148-170 | a ValueError iff the list lengths differ; otherwise each image's result depends on that image alone |
| Detectors.OnnxYoloDetector.DetectedInImage | src/inference/detector.py:136-170 | in an image of the given width and height each detection is a candidate stretched from the square input to exactly those sides |
| Detectors.OnnxYoloDetector.DetectedAreSelected | src/inference/detector.py:148-170 | the detections of an image are pairwise within the threshold and account for every confident candidate |
| Workers.BatchingIsTransparent | src/inference/worker.py:58-83 | when every image loads, any split of the items into batches has the same publications, acknowledgements and trackers as one at a time |
| Workers.CamerasAreIndependent | src/inference/worker.py:53-83 | each camera's published tracks equal those of one lone tracker on that camera's frames |
| WorkerOutputs.AckAfterPublications | src/inference/worker.py:73-83 | every message is acknowledged once, in order, when its frame and those before it have published all their tracks and no later frame has published any |
| WorkerOutputs.PublishedTracksTell | src/inference/worker.py:73-83 | every track a worker publishes for a camera shows the story of a live track of a plain run over the detections in that camera's frames so far |
| WorkerTeams.CreatesIffShown | src/inference/worker.py:62-70 | a worker creates a track for a camera iff one of its frames of that camera shows a high-confidence detection |
| WorkerTeams.SharedIdsIffSplit | src/inference/worker.py:6-11 | however frames are split over workers, two different tracks of a camera share an id iff two workers each got such a frame |
| WorkerBatches.ScheduleIsTransparent | src/inference/batcher.py:79-123 | for every schedule of arrivals, timeouts, clock readings and stop, the worker behind the batcher does exactly what it does for the items taken from the queue, one at a time in submission order |
| WorkerBatches.OnlyUnharmed | src/inference/worker.py:58-71 | the worker processes exactly the batches before the first one with a missing image |
| WorkerBatches.TransparentIffFailsAtHead | src/inference/worker.py:58-83 | with images missing, batches and single frames have the same effects iff the first missing image is that of the first frame of its batch |
| WorkerBatches.SchedulePrefix | src/inference/batcher.py:79-123 | for every schedule and any missing images, the worker's effects are those of a prefix of the submitted frames |
| WorkerObjects.InferenceWorker.ProcessBatch | src/inference/worker.py:58-83 | loads the whole batch, failing without effect on a missing image; then one call of the detector object, then frame by frame: the value-level batch, with trackers created on demand |
| WorkerObjects.InferenceWorker.DetectedInFrame | src/inference/worker.py:63-71 | the detections used for a frame come from its own image and carry its own ids |
| Batchers.TimeLeft | src/inference/batcher.py:113-117 | the time left is absent without a start, never negative, and zero exactly from start + max_wait on |
| Batchers.Timeout | src/inference/batcher.py:83-89 | the poll timeout is never negative and never above the cap |
| Batchers.RunKeeps | src/inference/batcher.py:79-111 | under every interleaving flushed, pending and queued items are exactly those submitted, in order; batches are non-empty and at most max_batch_size; something is pending iff a start time is set |
| Batchers.ExitFlushesAllTaken | src/inference/batcher.py:83-111 | at exit everything taken from the queue has been flushed, and the queue holds the rest |
| Batchers.LateBatchIsFlushed | src/inference/batcher.py:90-109 | past the deadline a running loop flushes within max_batch_size minus pending iterations |
| Batchers.DynamicBatcher.Create | src/inference/batcher.py:37-55 | construction fails iff max_batch_size < 1 or max_wait_ms < 0 |
| Batchers.DynamicBatcher.Run | src/inference/batcher.py:79-111 | the loop hands on exactly the model's batches and loses nothing it took |
| BatcherTiming.PollKeeps | src/inference/batcher.py:83-109 | on an ideal clock no single poll, whatever its cap, changes the batches and times still promised |
| BatcherTiming.PolledIsRan | src/inference/batcher.py:79-111 | the polls on the ideal clock are a run of the batcher's loop that is handed the same items |
| BatcherTiming.FlushesArePrefix | src/inference/batcher.py:68-117 | at any moment the flushes are a prefix of the cap-free reference |
| BatcherTiming.FlushesAreReference | src/inference/batcher.py:68-117 | for every positive cap and arrival schedule the loop ends with exactly the reference's batches, start and flush times |
| BatcherTiming.ReferenceIsTheHistory | src/inference/batcher.py:4-13 | the reference is the only complete history in which each batch leaves when full or exactly at start + max_wait, with everyone in time on board |
| Cosines.InnerProductBound | src/reid/cross_camera_matcher.py:40-42 | the squared inner product is at most the product of the squared norms |
| Cosines.CosineInRange | src/reid/cross_camera_matcher.py:40-42 | the similarity lies in [-1, 1], for zero vectors too |
| Cosines.LawOfCosines | src/reid/cross_camera_matcher.py:40-42 | the squared distance of two embeddings is the sum of their squared norms less twice the product of the norms and the similarity; a zero vector has similarity 0 |
| Cosines.EventInSchema | src/common/schemas.py:144 | every match event carries a similarity its schema accepts |
| Galleries.ScanIsFirstMaximum | src/reid/cross_camera_matcher.py:87-97 | the nested scan returns the first maximum, and nothing iff no similarity exceeds -1 |
| Galleries.NewestIs | src/reid/cross_camera_matcher.py:138-141 | of a longer entry list exactly the last five stay, in order |
| GalleryEvents.EventIffOtherCamera | src/reid/cross_camera_matcher.py:84-113 | a sighting gives an event iff, in the pruned gallery, the first of the most similar entries reaches 0.72 and was seen by another camera |
| GalleryEvents.DecidingEntry | src/reid/cross_camera_matcher.py:97-113 | that entry decides: its identity is the answer, and the event names the sighting, the entry's track and camera, the identity and their similarity |
| GalleryEvents.EventsNameSightings | src/reid/cross_camera_matcher.py:66-119 | on every run each event names an earlier sighting of its zone, at most 300 s old, by another camera, that got the same identity, with a similarity of at least 0.72 |
| GalleryPlaces.AllExplained | src/reid/cross_camera_matcher.py:130-152 | whatever the clock does, a sighting the gallery keeps was never found too old, and one it lost was found too old or covered by five later ones that were not |
| GalleryPlaces.KeptIsNewest | src/reid/cross_camera_matcher.py:130-152 | on safe readings the young sightings kept of an identity are the newest five young ones ever logged |
| GalleryRuns.GalleryIsPredicted | src/reid/cross_camera_matcher.py:66-152 | as long as a zone's calls agreed with the log, its gallery holds exactly the sightings so kept, identity by identity |
| GalleryRuns.RunAgrees | src/reid/cross_camera_matcher.py:66-152 | on every run with safe readings, every zone's gallery, pruned, is what the log keeps |
| GalleryRuns.BoundedAnswersAsLog | src/reid/cross_camera_matcher.py:66-119 | on safe readings every call gives the identity and event of scanning, in creation order, the last five logged entries no older than 300 s |
| GalleryRuns.ChronologicalIsSafe | src/reid/cross_camera_matcher.py:61-63 | a clock that does not go back is safe |
| GallerySchedules.AgreesExactlyWhenSafe | src/reid/cross_camera_matcher.py:61-152 | for given readings, every similarity and every choice of sightings gives the log's answers in a zone iff the readings are safe |
| GallerySchedules.CosineAgreesExactlyWhenSafe | src/reid/cross_camera_matcher.py:40-152 | the same under the matcher's cosine alone, for embeddings of any fixed number of components from two on |
| GalleryTraps.TrapDisagrees | src/reid/cross_camera_matcher.py:84-119 | a sighting the log keeps and the gallery lost, with embeddings that tell its identity apart, makes some call differ, at that sighting's next likeness or before |
| GallerySchedules.TrapIsSprung | src/reid/cross_camera_matcher.py:40-119 | under the cosine every such sighting has a run with the same readings on which gallery and log differ |
| GallerySchedules.RevivalDisagrees | src/reid/cross_camera_matcher.py:149 | under the cosine some run with readings 0, 400, 10 disagrees |
| GallerySchedules.UncoveringDisagrees | src/reid/cross_camera_matcher.py:139-140 | under the cosine some run with readings 100, five times 0, 350 disagrees |
| GallerySchedules.ClockThatGoesBackDisagrees | src/reid/cross_camera_matcher.py:61-63 | a concrete run under the cosine, with embeddings at right angles and readings 0, 400, 10: the gallery starts an identity where the log recognises one |
| GallerySchedules.StepBackAgrees | src/reid/cross_camera_matcher.py:61-63 | on readings 10, 0 no run disagrees, under any similarity |
| GalleryRuns.OtherZoneIsUntouched | src/reid/cross_camera_matcher.py:143-152 | a sighting leaves every other zone's gallery as it was |
| GalleryIdentities.ReturnedIsRecent | src/reid/cross_camera_matcher.py:66-119 | on every run, whatever the clock does, a call gets its fresh identity from the galleries or one that an earlier call of its zone got at most 300 s ago |
| GalleryIdentities.PrunedForGood | src/reid/cross_camera_matcher.py:143-152 | once a call of a zone finds no live entry of an identity, no call of the zone gets it from then on, on any clock, unless its id is generated anew |
| GalleryIdentities.ExpiredNeverReturns | src/reid/cross_camera_matcher.py:98-152 | on any clock, once a call of its zone finds all sightings of an identity too old, no later call of any zone gets it |
| GalleryIdentities.IdentityKeepsZone | src/reid/cross_camera_matcher.py:66-119 | two calls that get the same identity are calls of the same zone |
| GalleryObjects.CrossCameraMatcher.PruneAndGet | src/reid/cross_camera_matcher.py:143-152 | pruning the records in place is the value-level pruning; other zones keep theirs |
| GalleryObjects.FindBest | src/reid/cross_camera_matcher.py:84-97 | the loops over records and entries find the scan's winner |
| GalleryObjects.CrossCameraMatcher.Observe | src/reid/cross_camera_matcher.py:66-119 | the object's call changes the galleries and answers as the value-level call does |
| Brokers.DeliveryKeepsPartition | src/streaming/redis_streams.py:75-99 | a read keeps undelivered, pending and acknowledged messages a partition |
| Brokers.ReadsAllItMay | src/streaming/redis_streams.py:84-90 | a read delivers count messages or all there are, makes exactly those pending and acknowledges none |
| Brokers.NewGroupStartsAtZero | src/streaming/redis_streams.py:113-118 | a new group starts before the first message with nothing pending or acknowledged; the log and every other group stay as they are |
| Brokers.AckKeepsPartition | src/streaming/redis_streams.py:101-102 | an acknowledgement moves exactly its message from pending to acknowledged, keeps the partition and the cursor, is final, and is idempotent |
| Brokers.PublishAppendsCopies | src/streaming/redis_streams.py:51-73 | a publish appends one to five copies if it succeeds, at most five if it fails, and nothing else |
| Brokers.OneCopyPerAttempt | src/streaming/redis_streams.py:62-73 | a publish leaves one copy for each attempt that reached the server, up to the first success or the last attempt |
| Brokers.AppendingTouchesNoGroup | src/streaming/redis_streams.py:62-68 | what a publish appends comes behind the stream's messages and touches no group and no other stream |
| Brokers.BackoffIsCapped | src/streaming/redis_streams.py:27-30 | retry delays start at one second, never fall and never exceed a minute |
| Brokers.BackoffDoubles | src/streaming/redis_streams.py:27-30 | each retry delay is twice the one before, or a minute |
| Brokers.RedisStreamsBroker.Publish | src/streaming/redis_streams.py:51-73 | the retry loop appends exactly those copies, returns the last one's id, sleeps after each failure, and fails iff all five attempts do |
| Brokers.RedisStreamsBroker.EnsureGroup | src/streaming/redis_streams.py:104-118 | the group exists afterwards; a new one starts before the first message, and an existing one, the log and every other group and stream are left as they are; any other error is raised and changes nothing, and a remembered group is not asked for again |
| Brokers.RedisStreamsBroker.Consume | src/streaming/redis_streams.py:75-99 | a read delivers the next undelivered messages in order, at most count, and makes them pending; a new group's first read delivers from the first message on; it fails only with ensure_group, and then changes nothing |
| Storages.FirstWriteWins | src/storage/timeseries_writer.py:34-42 | old rows stay; a new id has the row of the first event that carries it; nothing else appears |
| Storages.NewRowsSpellOut | src/storage/timeseries_writer.py:45-72 | a new row spells out its event: the time in seconds, the camera for the missing zone, and every other column as the event has it |
| Storages.RedeliveryIsIdle | src/storage/timeseries_writer.py:88-91 | writing any mix of events written before changes nothing |
| Storages.OverlapIsIdle | src/storage/timeseries_writer.py:88-91 | overlapping batches leave the table as if each event had come once |
| Storages.TimeSeriesWriter.WriteBatch | src/storage/timeseries_writer.py:81-111 | all of a batch is committed or, on a failure at any row or at the commit, nothing is |
| Pipelines.StepKeeps | src/inference/worker.py:73-99 | every step of workers, writers, dead batch threads, crashes, redelivery and failed writes keeps the invariant and takes nothing back |
| Pipelines.NothingIsLost | src/streaming/redis_streams.py:75-102 | after every run undelivered, pending and acknowledged messages partition both streams |
| Pipelines.AckedFrameIsPublished | src/inference/worker.py:73-83 | an acknowledged frame was processed to the end and all its track events are in the stream |
| Pipelines.AckedEventIsStored | src/storage/main.py:39-55 | an acknowledged event has its own row in the table |
| Pipelines.AckedFrameIsStored | src/storage/main.py:39-55 | once the event stream is acknowledged, every event of an acknowledged frame's processing is in the table |
| Pipelines.FirstRowStays | src/storage/timeseries_writer.py:34-42 | a written row is never changed or removed in any continuation of a run |
| Pipelines.OneRowPerEvent | src/storage/timeseries_writer.py:34-42 | messages with one event id carry the same event, and its one row is the row of each |
| PipelineOrders.ProcessedOnceInOrder | src/inference/worker.py:58-99 | without reclaims no frame is processed to the end twice, whatever crashes; a worker takes its frames up in the order of the stream, and no frame is with two workers or with one and done |
| PipelineOrders.ReclaimMayRepeat | src/streaming/base.py:54-61 | a frame reclaimed from a worker that is still at it may be processed to the end by both |
| Redelivery.AckableIffServed | src/inference/worker.py:58-99 | after every run, a pending frame can be acknowledged without being reclaimed iff some worker whose batch thread runs has it queued or in hand |
| Redelivery.EventAckableIffHeld | src/storage/main.py:39-55 | the same for events and the writers' batches |
| Redelivery.ReclaimRescues | src/streaming/base.py:54-61 | a pending frame that a process with a running thread reclaims can be acknowledged again |
| Redelivery.ReclaimRescuesEvent | src/streaming/base.py:54-61 | likewise a pending event that a writer reclaims |
| Redelivery.StrandedForever | src/streaming/base.py:54-61 | a frame held by no running thread stays pending in every continuation that does not reclaim it |
| Redelivery.DeadStaysDead | src/inference/batcher.py:79-123 | only a restart of the process brings a dead batch thread back |
| Redelivery.DeadWorkerStrands | src/inference/worker.py:85-99 | once its thread has died, every frame a worker reads before its restart can be acknowledged by nobody until it is reclaimed |
| Redelivery.FailedPublishStrands | src/inference/worker.py:77-83 | a run in which a publish fails for good: the frame in hand and the next one read are stranded in the process that read them |
| Redelivery.CrashStrandsFrame | src/inference/worker.py:53-83 | a worker that crashes after its read leaves a frame that no continuation without a reclaim acknowledges |
| Redelivery.CrashStrandsEvent | src/storage/main.py:39-55 | likewise a writer and an event |
| Redelivery.FailedWriteStrands | src/storage/main.py:39-55 | a failed write changes no row and strands every event of its batch that no other writer holds |
| Readers.YieldsGreedy | src/ingestion/rtsp_reader.py:77-114 | the loop yields the greedy choice among the frames read, across reconnects, numbered upwards |
| Readers.ReadsAre | src/ingestion/rtsp_reader.py:77-101 | the frames read are those of the passes whose read succeeds on a source open already or opened then, each once, in order |
| Readers.MillisecondsCutOff | src/ingestion/rtsp_reader.py:113 | the stamp is the whole number of milliseconds next to the wall clock, on the side of zero |
| Readers.NumbersRiseByOne | src/ingestion/rtsp_reader.py:109-114 | sequence numbers rise by one without gaps |
| Readers.FramesAreSpaced | src/ingestion/rtsp_reader.py:103-108 | frames n apart in the output are at least n intervals apart in time, across reconnects |
| Readers.WindowHoldsFew | src/ingestion/rtsp_reader.py:103-108 | a window of length t holds at most 1 + t * fps frames |
| Readers.NothingMoreToGain | src/ingestion/rtsp_reader.py:61-108 | on a monotone clock no other choice of the read frames with that spacing yields more |
| Readers.Outage | src/ingestion/rtsp_reader.py:78-94 | while the source is unreachable nothing is yielded or forgotten, and the delays follow one after another |
| Readers.DelaysAreBounded | src/ingestion/rtsp_reader.py:83-88 | reconnect delays start at two seconds, never fall during an outage and never exceed thirty |
| Readers.DelayDoubles | src/ingestion/rtsp_reader.py:83-88 | each reconnect delay is twice the one before, or thirty seconds |
| Readers.DelaysRestart | src/ingestion/rtsp_reader.py:78-101 | an outage after a connection that was had and lost starts from the first delay again |
| Readers.RtspFrameReader.Frames | src/ingestion/rtsp_reader.py:61-114 | the generator's loop computes exactly the model's yields, wall-clock stamps included, sleeps and fields |

## Left out

- Floating-point rounding, NaN and numpy broadcasting: all numbers are exact reals and all shapes agree.
- Neural inference, image resizing, embedding extraction and class-name tables: the detector is any function of one image, embeddings are any vectors.
- A model output without class columns: `Detectors.DecodeYoloOutput` takes at least one class score per candidate.
- `updated_at_ms`, generated event ids, match ids and event timestamps of published tracks: they do not influence tracking.
- The tracker's dict of tracks: a sequence in insertion order, because each key is the track's own id; matched ids are positions in it.
- The interleaving of creating tracks and storing them: `TrackerObjects.ByteTracker.Update` creates the new tracks in order and then appends them.
- Causes of failures: which image is missing, which publish or `ack` fails and when are choices of the environment, one step or input each.
- Threads and locks: the batcher's queue, stop flag and clock readings, and the order of pipeline steps, are inputs of each step; the join timeout of `stop` is not modelled.
- Items still queued when the batcher stops: the loop does not drain them, and no theorem claims they are flushed.
- Progress of the pipeline: no theorem says that a step is ever taken; `Redelivery` says which messages can still be acknowledged.
- Uniqueness per frame: a frame processed twice, as a reclaim may bring about, publishes new event ids, so the table holds one row per event, not per frame.
- Pipelines.StepKeeps: the events of a frame are arbitrary, with ids never generated before; what they say is the subject of the tracker and worker models.
- GalleryObjects.CrossCameraMatcher.Observe: takes the generated identity id as an input that the zone does not hold yet, because random ids are assumed never to repeat.
- JSON encoding of payloads and validation of decoded messages.
- Vectors of different lengths in `_cosine_similarity`: the program raises an error; `Cosines.Cosine` gives such a pair the lowest similarity.
- The 30-day retention policy of the table, its indexes and its aggregates.
- The Kafka backend, whose acknowledgement commits a consumer position rather than one message.
- Dashboard, settings, logging, frame files, YAML loading and deployment scripts: input, output and plumbing.
