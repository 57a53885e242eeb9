# artmobilib marker tracking, modelled in Dafny

This project models the marker-tracking core of the `artmobilib` browser library (the bundle
`build/artmobilib.js`) and proves properties of it. A camera frame is reduced by `jsfeat` to
corners and ORB descriptors. The library matches those descriptors against the descriptors of
trained markers. It estimates a homography from the matches with RANSAC, and reports the first
active marker that passes two thresholds. Around that pipeline sit a few small state machines:
a ring buffer of frame times and a profiler, an event manager, a loading counter, the holder
that enables and disables tracked 3D objects, and two asset-path helpers.

The `jsfeat` primitives are not part of this model. They enter as oracles or as inputs:
- the descriptor and corner buffers of the screen (`Tracker.Frame`) and of a trained marker
  (`Tracker.TrainingResult`);
- `jsfeat.math.qsort` (a `sort` function whose contract is to sort by descending score);
- `motion_estimator.ransac` (a function giving success and an inlier mask);
- the homography kernel;
- the projection of the marker corners.

Clocks are parameters. Callbacks (event listeners, loading callbacks, enable/disable hooks) are
foreign code: the methods return the calls they make, in order, instead of making them.

Modules, one per file:

- js.dfy (module `Js`): JavaScript values, truthiness, the relational tests used on parameters, thrown exceptions.
- params.dfy (module `Params`): the `SetParameters` merge shared by every component.
- popcount.dfy (module `Popcnt`): `popcnt32`, `popcnt32_2` and `popcnt32_3` over 32-bit words.
- matching.dfy (module `Matching`): `AM.Matching`, `MatchPattern`, `AM.match_t`.
- keypoints.dfy (module `Keypoints`): `AM.DiamondAngle`, `AM.IcAngle`, `AM.DetectKeypointsPostProc`.
- pose.dfy (module `Pose`): `AM.Pose` and `find_transform`.
- keyorder.dfy (module `KeyOrder`): the `for…in` order of an object used as a dictionary.
- tracker.dfy (module `Tracker`): `AM.TrainedImage`, `AM.MarkerTracker`.
- ringbuffer.dfy (module `Ring`): the profiler's `ring_buffer`.
- profiler.dfy (module `Profiling`): `stopwatch` and `AM.Profiler`.
- events.dfy (module `Events`): `AM.EventManager`.
- loading.dfy (module `Loading`): `AM.LoadingManager`.
- holder.dfy (module `Tracked`): `AMTHREE.TrackedObjManager.prototype.Holder` and `GetObject`.
- paths.dfy (module `Paths`): `AMTHREE.GetFilename` and `CreateConstants`.

## Model

| member | source | states |
|---|---|---|
| Params.MergeParameters | build/artmobilib.js:3623-3628 | the `for…in` loop gives the property-by-property merge `Merged` |
| Params.MergedKeys | build/artmobilib.js:3623-3628 | a merge never adds or removes a parameter name |
| Params.MergedUntouched | build/artmobilib.js:3623-3628 | a parameter the argument does not name keeps its value |
| Params.MergedUnknown | build/artmobilib.js:3625-3626 | a parameter whose value is `undefined` is never overwritten, whatever the argument says |
| Params.MergedOverwrites | build/artmobilib.js:3625-3626 | a known parameter named in the argument takes the given value |
| Popcnt.Popcnt32Correct | build/artmobilib.js:4121-4125 | `popcnt32` returns the number of set bits of every 32-bit word, negative words included |
| Popcnt.PopCountZero | build/artmobilib.js:4199-4203 | a word has no set bit exactly when it is zero |
| Popcnt.Popcnt32Table8 | build/artmobilib.js:4147-4158 | `popcnt32_2`: four byte-table lookups with arithmetic shifts in between give the number of set bits |
| Popcnt.Popcnt32Table8Correct | build/artmobilib.js:4149-4158 | the four lookups of `popcnt32_2` add up to the number of set bits of the word |
| Popcnt.BuildHalfWordTable | build/artmobilib.js:4163-4165 | the 65536 values of `popcnt32(i)` form a table whose entry `i` is the number of set bits of `i` |
| Popcnt.Popcnt32Table16 | build/artmobilib.js:4167-4174 | `popcnt32_3`: the low-half lookup plus the high-half lookup after `>> 16` give the number of set bits |
| Popcnt.Popcnt32Table16Correct | build/artmobilib.js:4169-4174 | the two lookups of `popcnt32_3` add up to the number of set bits, for negative words too |
| Matching.Distance | build/artmobilib.js:4199-4203 | the Hamming distance of two 8-word descriptors is at most 256 |
| Matching.DistanceSymmetric | build/artmobilib.js:4199-4203 | the distance is the same whichever descriptor is the query |
| Matching.DistanceZero | build/artmobilib.js:4199-4203 | the distance is 0 exactly when the 8 words agree |
| Matching.WordDistance | build/artmobilib.js:4202 | one term of the distance is the number of set bits of the XOR of the two words |
| Matching.DescriptorDistance | build/artmobilib.js:4199-4203 | the inner loop computes the Hamming distance of the two descriptors |
| Matching.ScanLevelSpec | build/artmobilib.js:4197-4215 | scanning a level keeps the smallest distance, `best_dist <= best_dist2`, and the first index reaching the smallest distance (updates use strict `<`) |
| Matching.ScanLevelsSpec | build/artmobilib.js:4191-4216 | scanning levels keeps the minimum over all of them and the first (level, index) in scan order reaching it |
| Matching.BestForSpec | build/artmobilib.js:4185-4216 | for one query: `best_dist` is the minimum distance over all levels and descriptors; `best_dist <= best_dist2 <= 256`; the position is the first reaching the minimum, or (-1, -1) with distance 256 when nothing is closer than 256 |
| Matching.ScanQuery | build/artmobilib.js:4186-4216 | the two nested loops compute exactly that search result |
| Matching.MatchesSound | build/artmobilib.js:4219-4229 | at most one match per query; each match records an accepted query (`best_dist < match_threshold`) with its best level and index; screen indices strictly increase |
| Matching.MatchesComplete | build/artmobilib.js:4219-4229 | every accepted query is recorded |
| Matching.MatchIsClose | build/artmobilib.js:4219-4229 | with a threshold of at most 256, a match names an existing trained descriptor strictly closer than the threshold, and its `distance` field is still the default 0 |
| Matching.Matcher.constructor | build/artmobilib.js:4090-4099 | no screen descriptors, no matches, `match_threshold` 48 |
| Matching.Matcher.SetScreenDescriptors | build/artmobilib.js:4106-4108 | stores the screen descriptors |
| Matching.Matcher.MatchPattern | build/artmobilib.js:4177-4248 | the matches list is the accepted queries in order, and the count is its length |
| Matching.Matcher.Match | build/artmobilib.js:4116-4119 | `MatchPattern` on the stored screen descriptors, and the count remembered |
| Matching.Matcher.SetParameters | build/artmobilib.js:4274-4279 | the shared merge, which keeps `match_threshold` present |
| Keypoints.DiamondAngle | build/artmobilib.js:3694-3699 | the result is NaN exactly at the origin |
| Keypoints.DiamondQuadrants | build/artmobilib.js:3694-3699 | the angle lies in [0, 4) and gives the quadrant back: [0, 1], (1, 2], (2, 3), [3, 4) |
| Keypoints.DiamondAxes | build/artmobilib.js:3694-3699 | the four half-axes map to 0, 1, 2 and 3 quarter turns |
| Keypoints.DiamondScale | build/artmobilib.js:3694-3699 | scaling both moments by a positive factor leaves the angle unchanged |
| Keypoints.RowPair | build/artmobilib.js:3678-3686 | the loop over one row pair computes `v_sum` and the `m_10` update of that pair |
| Keypoints.Moments | build/artmobilib.js:3666-3687 | the loops compute the moments `m_01` and `m_10` of the patch defined row by row |
| Keypoints.IcAngle | build/artmobilib.js:3660-3691 | the result is the orientation of the moments over the `u_max` patch |
| Keypoints.M10Inside | build/artmobilib.js:3672-3685 | with the patch inside the image, `m_10` is the sum of `u * I(u, v)` over the patch |
| Keypoints.M01Inside | build/artmobilib.js:3676-3687 | with the patch inside the image, `m_01` is the sum of `v * I(u, v)` over the patch |
| Keypoints.OrientationInside | build/artmobilib.js:3664-3691 | with the patch inside the image, the angle is the diamond angle of the two first moments |
| Keypoints.OrientationOutside | build/artmobilib.js:3664-3691 | when a patch point falls outside the pixel buffer, the angle is NaN |
| Keypoints.PatchIsRound | build/artmobilib.js:3661 | the `u_max` patch lies within 15 of the centre, inside a disc of squared radius 234, and is symmetric in both axes |
| Keypoints.DetectKeypointsPostProc | build/artmobilib.js:3701-3717 | returns `min(count, max_allowed)`; the buffer is the sorted-and-truncated or unchanged corners, each kept one oriented |
| Keypoints.PostProcKeepsBest | build/artmobilib.js:3704-3709 | every kept corner scores at least as high as every dropped one, and after truncation the first `count` entries are in non-increasing score order |
| Keypoints.PostProcSameCorners | build/artmobilib.js:3701-3717 | the first `count` entries are a permutation of the corners; each kept corner has its own orientation; the rest of the buffer is untouched; without truncation the order is kept |
| Pose.MaskedIndicesSpec | build/artmobilib.js:4343-4352 | the kept indices are exactly the inliers below `count`, each once, increasing |
| Pose.CompactedSelects | build/artmobilib.js:4343-4352 | the compacted prefix is the original array read at the kept indices: stable compaction |
| Pose.CompactedLength | build/artmobilib.js:4343-4352 | the compacted prefix has as many entries as there are inliers |
| Pose.AllInliers | build/artmobilib.js:4343-4352 | with every mask entry set, every correspondence is kept in place |
| Pose.GoodCountBounds | build/artmobilib.js:4342-4352 | the inlier count never exceeds `count` nor the length of the mask |
| Pose.CompactInliers | build/artmobilib.js:4343-4352 | the in-place loop moves the inliers to the front of both arrays in order and counts them |
| Pose.FindTransform | build/artmobilib.js:4313-4360 | on success: the inlier count, and the kernel run on the compacted inliers; on failure: count 0 and the identity homography |
| Pose.Pose.constructor | build/artmobilib.js:4305-4309 | good count 0, a zero 3 x 3 matrix, a mask of 500 zeros |
| Pose.Pose.Pose | build/artmobilib.js:4386-4389 | stores what `find_transform` gives and returns the good count |
| Tracker.MatchesPointAtCorners | build/artmobilib.js:4328-4334 | with a threshold of at most 256, every match indexes an existing screen corner and trained corner |
| Tracker.FirstPassingSpec | build/artmobilib.js:3887-3911 | first fit: the chosen marker is active and passes both thresholds; no earlier active marker passes; with none chosen, no active marker passes |
| Tracker.MarkerTracker.TryMarker | build/artmobilib.js:3890-3904 | one active marker: true exactly when `count >= match_min` and `good_count >= match_min` |
| Tracker.MarkerTracker.Scan | build/artmobilib.js:3887-3912 | the loop stops at the first passing marker in `for…in` order, with the matcher and pose holding its result |
| Tracker.MarkerTracker.Match | build/artmobilib.js:3879-3917 | returns true iff some active marker passes both thresholds; records the first one in `for…in` order as the matching image, with its matches and homography; records none otherwise |
| Tracker.MarkerTracker.GetPose | build/artmobilib.js:3932-3940 | `undefined` exactly when the last match failed; otherwise the projected corners of the matched marker |
| Tracker.MarkerTracker.AddMarker | build/artmobilib.js:3948-3954 | a fresh active trained image holding the training result; an existing uuid keeps its place and loses its old image; other markers unchanged |
| Tracker.MarkerTracker.RemoveMarker | build/artmobilib.js:3961-3965 | the uuid leaves the map and the order; an unknown uuid changes nothing |
| Tracker.MarkerTracker.ActiveMarker | build/artmobilib.js:3974-3977 | sets only the flag of a known uuid, to `bool === true`: its levels, size, uuid and `empty` stay; an unknown uuid changes nothing |
| Tracker.MarkerTracker.ActiveAllMarkers | build/artmobilib.js:3984-3988 | every marker's flag becomes `bool === true`, and nothing else of any marker changes |
| Tracker.MarkerTracker.DeactivateThenReactivate | build/artmobilib.js:3974-3977 | deactivating an active marker and activating it again restores every trained image, so matching sees the same markers |
| Tracker.MarkerTracker.ClearMarkers | build/artmobilib.js:3994-3996 | no marker is left |
| Tracker.MarkerTracker.SetParameters | build/artmobilib.js:4071-4081 | the same merge applied to the tracker's parameters and to those of training, filter, detection and matching |
| Tracker.MarkerTracker.constructor | build/artmobilib.js:3833-3848 | no markers, no match, `match_min` 8, and the default parameters of each component |
| Tracker.MarkerTracker.GetMatchUuidAsWritten | build/artmobilib.js:3923-3925 | without a match the call throws a TypeError |
| Tracker.MarkerTracker.GetMatchUuid | build/artmobilib.js:3923-3925 | `undefined` exactly when there is no match; otherwise the matched uuid |
| Tracker.MarkerTracker.GetTrainedCornersAsWritten | build/artmobilib.js:4048-4051 | always throws a ReferenceError |
| Tracker.MarkerTracker.GetTrainedCorners | build/artmobilib.js:4048-4051 | the corner levels of a known uuid; a TypeError for an unknown one |
| Tracker.UuidBeforeAnyMatch | build/artmobilib.js:3923-3925 | a new tracker throws on `GetMatchUuid` |
| Tracker.UuidBeforeAnyMatchIntended | build/artmobilib.js:3923-3925 | the intended version answers `undefined`, like `GetPose` |
| Tracker.CornersAfterAddAsWritten | build/artmobilib.js:4048-4051 | even right after `AddMarker`, the corners cannot be read |
| Tracker.CornersAfterAdd | build/artmobilib.js:4048-4051 | the intended version gives back exactly the trained corner levels |
| Tracker.NewTrainedImage | build/artmobilib.js:3950-3951 | a fresh trained image that stores the training result under the uuid, active |
| Tracker.TrainedImage.constructor | build/artmobilib.js:4515-4527 | empty, no levels, size 0, active |
| Tracker.TrainedImage.GetLevelNbr | build/artmobilib.js:4555-4557 | exactly the levels that have both corners and descriptors |
| Tracker.TrainedImage.Set | build/artmobilib.js:4603-4609 | stores levels and size and marks the image non-empty |
| Tracker.TrainedImage.Empty | build/artmobilib.js:4624-4628 | drops the levels, keeps width and height |
| Tracker.TrainedImage.SetUuid | build/artmobilib.js:4635-4637 | stores the uuid |
| Tracker.TrainedImage.Active | build/artmobilib.js:4652-4654 | active exactly when the argument is the boolean `true` |
| KeyOrder.Without | build/artmobilib.js:3961-3965 | `delete` leaves every other key, each still once |
| Ring.Int32 | build/artmobilib.js:958 | an `Int32Array` element stores the value wrapped to 32-bit two's complement |
| Ring.WindowSuffix | build/artmobilib.js:955-987 | the buffer's window is the most recent pushes, oldest first |
| Ring.WindowPush | build/artmobilib.js:965-975 | a push grows the window while there is room, and otherwise drops exactly the oldest value |
| Ring.RingBuffer.constructor | build/artmobilib.js:957-963 | empty buffer of the given capacity |
| Ring.RingBuffer.PushBack | build/artmobilib.js:965-975 | the contents stay the last `arr_size` values pushed, oldest first; a full buffer drops exactly its oldest value |
| Ring.RingBuffer.Append | build/artmobilib.js:966-969 | a push with room appends |
| Ring.RingBuffer.Overwrite | build/artmobilib.js:970-974 | a push on a full buffer drops the oldest value and appends |
| Ring.RingBuffer.Get | build/artmobilib.js:977-979 | `get(i)` is the `i`-th oldest value for `i < size()`; `undefined` exactly for a negative non-zero remainder |
| Ring.RingBuffer.Size | build/artmobilib.js:981-983 | `min(pushes, arr_size)`, never above the capacity |
| Profiling.Stopwatch.constructor | build/artmobilib.js:926-931 | all times 0, not running |
| Profiling.Stopwatch.Start | build/artmobilib.js:933-936 | start time is now, running |
| Profiling.Stopwatch.Stop | build/artmobilib.js:938-942 | the run time is measured from the last start |
| Profiling.Stopwatch.Reset | build/artmobilib.js:948-950 | only the run time is cleared |
| Profiling.FrameHistory.constructor | build/artmobilib.js:991-992 | no frame counted, an empty ring buffer of 20 |
| Profiling.FirstNamed | build/artmobilib.js:1025-1035 | the index of the first pair with that name, or none when no pair has it |
| Profiling.Profiler.constructor | build/artmobilib.js:993-997 | no timers, a fresh frame timer |
| Profiling.Profiler.Add | build/artmobilib.js:999-1001 | one new pair with a fresh stopwatch at the end; the others unchanged |
| Profiling.Profiler.FindTask | build/artmobilib.js:1025-1035 | the loop returns the first pair with that name, or `null` |
| Profiling.Profiler.Start | build/artmobilib.js:1037-1040 | starts the first stopwatch with that name, keeping its run and stop times, and touches no other; a TypeError for an unknown name |
| Profiling.Profiler.Stop | build/artmobilib.js:1042-1045 | stops the first stopwatch with that name at `now`, its run time measured from its unchanged start, and touches no other; a TypeError for an unknown name |
| Profiling.Profiler.ResetAll | build/artmobilib.js:1005-1010 | every stage's run time is 0, its start time, stop time and running flag stay; the frame timer and the history are untouched |
| Profiling.Profiler.NewFrame | build/artmobilib.js:1003-1023 | one more frame; every stage's run time cleared and nothing else of it changed; the frame time pushed into the history; the frame timer stopped at `stopAt` and restarted at `startAt` |
| Profiling.Profiler.Lap | build/artmobilib.js:1012-1021 | the frame timer stops at `stopAt`, its run time is pushed into the history, and it restarts at `startAt` |
| Events.SpliceIsRemoveFirst | build/artmobilib.js:123-127 | `splice` at the `indexOf` position removes the first occurrence |
| Events.RemoveFirstSpec | build/artmobilib.js:123-127 | removing a bound listener takes out exactly that one and keeps the list duplicate-free |
| Events.IndexOf | build/artmobilib.js:103 | the first position of the listener, or -1 exactly when it is absent |
| Events.EventManager.constructor | build/artmobilib.js:88-90 | no listeners |
| Events.EventManager.AddListener | build/artmobilib.js:98-109 | true iff the name is a string and the function is not yet bound to it; then appended; stored lists stay non-empty and duplicate-free |
| Events.EventManager.RemoveListener | build/artmobilib.js:117-137 | true iff the name is a string with that listener; the name goes with its last listener, so no list is ever empty |
| Events.EventManager.Fire | build/artmobilib.js:145-157 | true iff the name has listeners; calls them in insertion order |
| Loading.Count | build/artmobilib.js:875 | `nbr \|\| 1`: a missing or zero count counts as one |
| Loading.DoCallbacks | build/artmobilib.js:868-871 | every callback called once, in order |
| Loading.LoadingManager.constructor | build/artmobilib.js:862-866 | nothing loading, no callbacks |
| Loading.LoadingManager.Start | build/artmobilib.js:874-878 | the counter grows by `nbr \|\| 1`; the progress callbacks run |
| Loading.LoadingManager.End | build/artmobilib.js:880-892 | the counter drops only while positive; once it reaches 0 or below it is clamped to 0, the end callbacks run, and both lists are emptied |
| Loading.LoadingManager.OnEnd | build/artmobilib.js:894-900 | kept while loading, called at once otherwise |
| Loading.LoadingManager.OnProgress | build/artmobilib.js:902-908 | kept while loading, called at once otherwise |
| Loading.StartThenEnd | build/artmobilib.js:874-900 | after `Start(k)`, an end callback runs at the `k`-th `End` and not before |
| Tracked.TimedOut | build/artmobilib.js:3272-3276 | an entry stays enabled only if it was enabled and within the timeout; nothing else changes |
| Tracked.AllTimedOut | build/artmobilib.js:3266-3277 | every entry checked, the keys unchanged |
| Tracked.CheckEntry | build/artmobilib.js:3270-3276 | one turn: the entry's disable call, if any, and the entry after the check |
| Tracked.TimeoutLoop | build/artmobilib.js:3268-3277 | the loop checks every entry and calls the disable hooks in `for…in` order |
| Tracked.CheckTimeoutOnce | build/artmobilib.js:3266-3277 | a second check with no time elapsed calls nothing: each object is disabled at most once |
| Tracked.Holder.constructor | build/artmobilib.js:3208-3211 | no objects |
| Tracked.Holder.Add | build/artmobilib.js:3213-3229 | the entry is disabled, with nothing elapsed; an existing uuid keeps its place |
| Tracked.Holder.Remove | build/artmobilib.js:3231-3239 | calls `on_disable` if the entry was enabled, then forgets it; a TypeError for an unknown uuid |
| Tracked.Holder.Clear | build/artmobilib.js:3241-3244 | removes every entry, disabling the enabled ones in `for…in` order |
| Tracked.Holder.Track | build/artmobilib.js:3246-3257 | elapsed back to 0; a disabled entry is enabled with a call to `on_enable`; a TypeError for an unknown uuid |
| Tracked.Holder.UpdateElapsed | build/artmobilib.js:3259-3264 | every entry's elapsed time grows by the same amount, nothing else changes |
| Tracked.Holder.CheckTimeout | build/artmobilib.js:3266-3278 | every enabled entry past the timeout is disabled, with its `on_disable` called, in `for…in` order |
| Tracked.Holder.ForEach | build/artmobilib.js:3280-3284 | visits every entry once, in `for…in` order |
| Tracked.Holder.Get | build/artmobilib.js:3286-3288 | the entry under the uuid, or `undefined` |
| Tracked.TrackedObjManager.GetObjectAsWritten | build/artmobilib.js:3196-3202 | always throws a TypeError |
| Tracked.TrackedObjManager.GetObject | build/artmobilib.js:3196-3202 | the object under the uuid, or `undefined` when none is held |
| Paths.SplitJoin | build/artmobilib.js:3375 | joining the pieces of `split` with the same separator gives the string back |
| Paths.LastPart | build/artmobilib.js:3375 | `split(sep).pop()` is the part after the last separator, or the whole string |
| Paths.GetFilename | build/artmobilib.js:3374-3376 | the path's suffix after its last `/` or `\`, containing neither |
| Paths.FilenameOfJoined | build/artmobilib.js:3374-3376 | a plain name appended to a directory with `/` is given back |
| Paths.GetFilenameIdempotent | build/artmobilib.js:3374-3376 | applying `GetFilename` twice changes nothing |
| Paths.OrEmpty | build/artmobilib.js:1968 | `v ? v : ''` |
| Paths.Directory | build/artmobilib.js:1963-1967 | the concatenation is empty or ends in `/`, and empty when no directory is given |
| Paths.CreateConstants | build/artmobilib.js:1958-1974 | the asset path is `root/` then `asset_path/`, each when given; each kind of file lives under it; a missing description reads as empty |
| Paths.ModelUrlFilename | build/artmobilib.js:2556 | a model URL built from `model_path` gives its file name back |
| Paths.NoRootNoAssets | build/artmobilib.js:1963-1968 | with no root and no asset directory, the paths are the description's own |

## Left out

- `jsfeat`: grayscale, blur, Yape06 and FAST detection, ORB description, resampling, `qsort`, RANSAC and the homography kernel are a foreign library. They enter as inputs or as oracle functions. `qsort`'s contract (a permutation sorted by descending score) is a precondition on the `sort` oracle. `motion_estimator.ransac` samples at random: the `ransac` oracle stands for the outcome of one call, so the model gives the same outcome to two `Match` calls on the same frame, where the library may not.
- Training (`AM.Training`), image filtering and detection beyond their parameter merge: their work is `jsfeat` calls and floating-point rescaling. A training result and a screen frame are inputs.
- `MarkerTracker.ComputeImage`, `GetScreenCorners`, `GetNumScreenCorners`, `GetMatches`, `GetMatchesMask`, `GetProfiler` and `Log`: detection calls, field reads and console output. The fields they read are in the model.
- The profiler calls inside `Match` and `GetPose`: timing only, with no effect on the result.
- `tCorners` (the perspective divide of the marker corners in `GetPoseCorners`): floating point. It enters `GetPose` as a function.
- Profiler `fps`, `log`, `log2` and `GetProfiler`: floating point and string formatting.
- Profiling.Stopwatch.Start: the clock `new Date().getTime()` is a parameter.
- Profiling.FrameHistory.constructor: `count_frames` and `ringbuff` are shared by every profiler in the library's closure. The model passes one shared history object to each profiler.
- Keypoints.IcAngle: returns the angle in quarter turns. The final multiplication by π/2 is floating point and is not modelled.
- Keypoints.IcAngle: `(py * step + px) | 0` is taken without its 32-bit wrap. Image offsets stay far below 2^31.
- Keypoints.Moments: the moments are exact integers. The library's doubles hold them exactly for byte-valued pixels.
- Keypoints.DiamondAngle: uses exact real division instead of IEEE doubles.
- Tracker.MarkerTracker.Match: requires `match_threshold` to be at most 256 (the documented range is 16 to 128). Above that, a query with no trained descriptor could be recorded with level -1. Pose estimation would then read a corner of `undefined` and throw; that throw is not modelled.
- Tracker.MarkerTracker.Match: when no marker passes, the contract does not state what the matcher and pose hold. They hold the result of the last marker tried.
- Tracker.MarkerTracker.AddMarker: uuids are strings. The `for…in` order is taken as insertion order. JavaScript lists integer-like keys first, in numeric order, and that case is not modelled.
- Tracker.MarkerTracker.AddMarker: the uuid `"__proto__"` replaces the prototype of `_trained_images` instead of adding a marker. The model adds it like any other uuid.
- Tracker.MarkerTracker.ActiveMarker: for a uuid naming a property inherited from `Object.prototype`, the library finds a truthy function, calls its missing `Active` and throws a TypeError. The model treats the uuid as unknown and changes nothing.
- Tracked.Holder.Remove: for a uuid naming an inherited property, the library reads `enabled` of the inherited function, calls nothing, and its `delete` removes nothing. The model throws a TypeError, as it does for every unknown uuid.
- Tracked.Holder.Track: for a uuid naming an inherited property, the library sets `elapsed` and `enabled` on the inherited function without throwing. The model throws a TypeError.
- Tracked.Holder.Get: for a uuid naming an inherited property, the library returns the inherited function. The model returns `undefined`.
- Tracked.Holder.Add: the same restriction on integer-like keys holds for the holder's uuids.
- Tracked.Holder.Add: the uuid `"__proto__"` replaces the prototype of `_objects` instead of adding an entry, and later `for…in` loops then walk that entry's enumerable fields. The model adds it like any other uuid.
- Tracked.Holder.Add: the `target` copy of the object's position, quaternion and scale is left out. The interpolation toward it is three.js matrix work outside this model.
- Tracked.Holder.Get: returns the entry as a value. Changes a caller makes through the returned object are not modelled.
- Tracked.Holder.UpdateElapsed: elapsed times are real numbers, not doubles.
- The other members of `AMTHREE.TrackedObjManager` (matrix updates and interpolation): three.js scene work.
- Params.MergeParameters: every `_params` is an object literal, so a name inherited from `Object.prototype` (such as `toString`) passes the `typeof … !== 'undefined'` test, and the library adds it as an own parameter. The model treats such a name as unknown and skips it, so `Params.MergedKeys` (no name is ever added) holds only for names that are not inherited.
- Params.MergedKeys: holds of the library only for parameter names not inherited from `Object.prototype`, as the previous line explains.
- Js.ToNumber: a string parameter converts to NaN in the model. JavaScript would parse a numeric string such as `"48"`.
- Popcnt.Popcnt32Table8: takes the defining property of its 256-entry table literal as a precondition. The literal is not checked entry by entry.
- Pose.Pose.constructor: the mask of `_match_mask` is whatever the RANSAC oracle reports. Entries past its end read as not inliers, as `undefined` is falsy.
- Ring.RingBuffer.constructor: requires a positive size. The library only builds buffers of 20.
- Loading.LoadingManager.Start: the count is an optional integer. Other argument types (strings, booleans) are not modelled.
- Loading.LoadingManager.End: callbacks are reported, not run. A callback that calls back into the manager while the lists are being flushed is not modelled.
- Loading.LoadingManager.IsLoading and GetRemaining: plain reads of the counter.
- Events.EventManager.AddListener: names inherited from `Object.prototype` (such as `"toString"`) are not modelled. The library would find a function there instead of a list, and its `indexOf` call would throw a TypeError.
- Events.EventManager.RemoveListener: for an inherited name the library throws a TypeError from the same `indexOf` call, where the model returns false.
- Events.EventManager.Fire: for an inherited name the library loops over the function's zero `length`, calls nothing and returns true, where the model returns false.
- Events.EventManager.Fire: the `params` passed to each listener are not modelled.
- Paths.CreateConstants: settings are strings or missing. A number or a boolean concatenated into a path is not modelled.
- Device and camera I/O, JSON and image loading, debug drawing, three.js objects, textures and sounds, device orientation, and geolocation: browser I/O and floating-point geometry outside the tracking core.

## Findings

| source | as written | input that shows it | evidently intended | confidence | as-written member | corrected member |
|---|---|---|---|---|---|---|
| build/artmobilib.js:3923-3925 | `GetMatchUuid` reads `_matching_image.GetUuid()` unconditionally | `GetMatchUuid()` on a new tracker, or after a failed `Match` | `undefined` when there is no match, as `GetPose` does | high; not executed | Tracker.MarkerTracker.GetMatchUuidAsWritten | Tracker.MarkerTracker.GetMatchUuid |
| build/artmobilib.js:4048-4051 | `GetTrainedCorners` reads `_trained_images[uuid]` with `uuid` bound nowhere in scope | `GetTrainedCorners()` right after `AddMarker(image, "a")` | the corner levels of a given marker uuid | high; not executed | Tracker.MarkerTracker.GetTrainedCornersAsWritten | Tracker.MarkerTracker.GetTrainedCorners |
| build/artmobilib.js:3196-3202 | `GetObject` calls `_holder.get`, but the holder defines `Get` (line 3286) | `GetObject("a")` for any uuid | the object held under the uuid, or `undefined` | high; not executed | Tracked.TrackedObjManager.GetObjectAsWritten | Tracked.TrackedObjManager.GetObject |
