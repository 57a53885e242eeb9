/**
 * `AM.TrainedImage` and `AM.MarkerTracker`: the trained markers, keyed by uuid, and the first-fit
 * search for the marker seen on screen. Training, filtering and detection are `jsfeat` work outside
 * this model: a marker's training result (its corner and descriptor levels and its size) is an input of
 * `AddMarker`, and the screen's corners and descriptors are an input of `Match`.
 */
module Tracker {
  import opened Js
  import Params
  import opened Matching
  import opened Keypoints
  import opened Popcnt
  import Pose
  import opened KeyOrder

  /** The corner levels and descriptor levels of an image as one training run produces them. */
  datatype TrainingResult = TrainingResult(cornersLevels: seq<seq<Keypoint>>, descriptorsLevels: seq<Descriptors>,
                                           width: int, height: int)

  /** The screen as the detection left it: its descriptors and its corner buffer. */
  datatype Frame = Frame(descriptors: Descriptors, corners: seq<Keypoint>)

  /** Every screen descriptor row has its corner. */
  predicate FrameOk(f: Frame)
  {
    WellFormed(f.descriptors) && f.descriptors.rows <= |f.corners|
  }

  /** Training levels as ORB leaves them: well-formed matrices, each row with its corner. */
  predicate Consistent(corners: seq<seq<Keypoint>>, descriptors: seq<Descriptors>)
  {
    AllWellFormed(descriptors) && |descriptors| <= |corners|
    && forall l :: 0 <= l < |descriptors| ==> descriptors[l].rows <= |corners[l]|
  }

  /**
   * When the threshold does not exceed 256, every match names a screen corner and a trained corner
   * that exist, so the pose estimation can read both ends of every correspondence.
   */
  lemma MatchesPointAtCorners(f: Frame, corners: seq<seq<Keypoint>>, levels: seq<Descriptors>, threshold: Value)
    requires FrameOk(f) && Consistent(corners, levels) && !LessThan(NoDistance, threshold)
    ensures var m := MatchesUpTo(f.descriptors, levels, threshold, f.descriptors.rows);
      Pose.ValidMatches(m, |m|, f.corners, corners)
  {
    var m := MatchesUpTo(f.descriptors, levels, threshold, f.descriptors.rows);
    forall j | 0 <= j < |m|
      ensures 0 <= m[j].screenIdx < |f.corners| && 0 <= m[j].patternLev < |corners|
              && 0 <= m[j].patternIdx < |corners[m[j].patternLev]|
    {
      MatchIsClose(f.descriptors, levels, threshold, j);
    }
  }

  // ---------------------------------------------------------------------
  // One marker against the screen

  /** The matches of the screen descriptors against a marker's levels. */
  function MarkerMatches(f: Frame, levels: seq<Descriptors>, threshold: Value): seq<MatchT>
    requires FrameOk(f) && AllWellFormed(levels)
  {
    MatchesUpTo(f.descriptors, levels, threshold, f.descriptors.rows)
  }

  /** What RANSAC reports on the correspondences of those matches. */
  function MarkerOutcome(f: Frame, corners: seq<seq<Keypoint>>, levels: seq<Descriptors>, threshold: Value,
                         ransac: (seq<Pose.Point>, seq<Pose.Point>) -> Pose.RansacOutcome): Pose.RansacOutcome
    requires FrameOk(f) && Consistent(corners, levels) && !LessThan(NoDistance, threshold)
  {
    var m := MarkerMatches(f, levels, threshold);
    MatchesPointAtCorners(f, corners, levels, threshold);
    ransac(Pose.PatternPoints(m, |m|, f.corners, corners), Pose.ScreenPoints(m, |m|, f.corners, corners))
  }

  /** The number of inliers `AM.Pose.Pose` reports for a marker. */
  function GoodCount(f: Frame, corners: seq<seq<Keypoint>>, levels: seq<Descriptors>, threshold: Value,
                     ransac: (seq<Pose.Point>, seq<Pose.Point>) -> Pose.RansacOutcome): nat
    requires FrameOk(f) && Consistent(corners, levels) && !LessThan(NoDistance, threshold)
  {
    var o := MarkerOutcome(f, corners, levels, threshold, ransac);
    if o.ok then Pose.InlierCount(o.mask, |MarkerMatches(f, levels, threshold)|) else 0
  }

  /** The homography `AM.Pose.Pose` leaves for a marker. */
  function Homography(f: Frame, corners: seq<seq<Keypoint>>, levels: seq<Descriptors>, threshold: Value,
                      ransac: (seq<Pose.Point>, seq<Pose.Point>) -> Pose.RansacOutcome,
                      kernel: (seq<Pose.Point>, seq<Pose.Point>) -> Pose.Matrix): Pose.Matrix
    requires FrameOk(f) && Consistent(corners, levels) && !LessThan(NoDistance, threshold)
  {
    var m := MarkerMatches(f, levels, threshold);
    MatchesPointAtCorners(f, corners, levels, threshold);
    var p, s := Pose.PatternPoints(m, |m|, f.corners, corners), Pose.ScreenPoints(m, |m|, f.corners, corners);
    var o := ransac(p, s);
    if o.ok then kernel(Pose.Compacted(p, o.mask, |m|), Pose.Compacted(s, o.mask, |m|)) else Pose.Identity
  }

  /** What matching reads of a trained image: whether it is active, its corner and descriptor levels. */
  datatype Marker = Marker(active: bool, corners: seq<seq<Keypoint>>, levels: seq<Descriptors>)

  predicate MarkerOk(m: Marker)
  {
    Consistent(m.corners, m.levels)
  }

  /** The two-threshold gate: enough matches, then enough of them confirmed by the homography. */
  predicate Passes(f: Frame, m: Marker, threshold: Value, matchMin: Value,
                   ransac: (seq<Pose.Point>, seq<Pose.Point>) -> Pose.RansacOutcome)
    requires FrameOk(f) && MarkerOk(m) && !LessThan(NoDistance, threshold)
  {
    AtLeast(|MarkerMatches(f, m.levels, threshold)|, matchMin)
    && AtLeast(GoodCount(f, m.corners, m.levels, threshold, ransac), matchMin)
  }

  // ---------------------------------------------------------------------
  // Trained images

  /** `AM.TrainedImage`: the corners and descriptors of a marker at each pyramid level. */
  class TrainedImage {
    var empty: bool
    var cornersLevels: seq<seq<Keypoint>>
    var descriptorsLevels: seq<Descriptors>
    /** Size of the image at level 0. */
    var width: int
    var height: int
    var uuid: string
    var active: bool

    /** A new trained image is empty, has no levels and is active. */
    constructor (id: string)
      ensures empty && cornersLevels == [] && descriptorsLevels == [] && width == 0 && height == 0
      ensures uuid == id && active
    {
      empty := true;
      cornersLevels := [];
      descriptorsLevels := [];
      width := 0;
      height := 0;
      uuid := id;
      active := true;
    }

    /** `GetCorners(level)`: reading past the array gives `undefined`. */
    function GetCorners(level: int): Option<seq<Keypoint>>
      reads this
    {
      if 0 <= level < |cornersLevels| then Some(cornersLevels[level]) else None
    }

    /** `GetDescriptors(level)`. */
    function GetDescriptors(level: int): Option<Descriptors>
      reads this
    {
      if 0 <= level < |descriptorsLevels| then Some(descriptorsLevels[level]) else None
    }

    /** `GetLevelNbr`: exactly the levels for which both corners and descriptors exist. */
    function GetLevelNbr(): (n: nat)
      reads this
      ensures forall level :: 0 <= level < n <==> GetCorners(level).Some? && GetDescriptors(level).Some?
    {
      if |descriptorsLevels| < |cornersLevels| then |descriptorsLevels| else |cornersLevels|
    }

    /** `Set`: stores a training result; the uuid and the activation flag stay. */
    method Set(corners: seq<seq<Keypoint>>, descriptors: seq<Descriptors>, w: int, h: int)
      modifies this`empty, this`cornersLevels, this`descriptorsLevels, this`width, this`height
      ensures !empty && cornersLevels == corners && descriptorsLevels == descriptors && width == w && height == h
    {
      empty := false;
      cornersLevels := corners;
      descriptorsLevels := descriptors;
      width := w;
      height := h;
    }

    /** The image holds the training result `t` under `id` and is active. */
    predicate Stores(t: TrainingResult, id: string)
      reads this
    {
      && !empty && active && uuid == id
      && cornersLevels == t.cornersLevels && descriptorsLevels == t.descriptorsLevels
      && width == t.width && height == t.height
    }

    /** What matching reads of this image. */
    function Snapshot(): Marker
      reads this
    {
      Marker(active, cornersLevels, descriptorsLevels)
    }

    /** `Empty`: drops the levels but keeps the size. */
    method Empty()
      modifies this`empty, this`cornersLevels, this`descriptorsLevels
      ensures empty && cornersLevels == [] && descriptorsLevels == [] && GetLevelNbr() == 0
      ensures width == old(width) && height == old(height)
    {
      empty := true;
      cornersLevels := [];
      descriptorsLevels := [];
    }

    method SetUuid(id: string)
      modifies this`uuid
      ensures uuid == id
    {
      uuid := id;
    }

    /** `Active(bool)`: only the boolean `true` activates; `1`, `"true"` or `undefined` deactivate. */
    method Active(v: Value)
      modifies this`active
      ensures active <==> v == Bool(true)
    {
      active := v == Bool(true);
    }
  }

  /** `new AM.TrainedImage(uuid)` followed by `SetResultToTrainedImage`. */
  method NewTrainedImage(uuid: string, t: TrainingResult) returns (ti: TrainedImage)
    ensures fresh(ti) && ti.Stores(t, uuid)
  {
    ti := new TrainedImage(uuid);
    ti.Set(t.cornersLevels, t.descriptorsLevels, t.width, t.height);
  }

  /** The markers in `for…in` order, as matching sees them. */
  ghost function Snapshots(keys: seq<string>, images: map<string, TrainedImage>): (ms: seq<Marker>)
    reads images.Values
    requires forall k :: k in keys ==> k in images
    ensures |ms| == |keys| && forall j :: 0 <= j < |keys| ==> ms[j] == images[keys[j]].Snapshot()
  {
    seq(|keys|, j requires 0 <= j < |keys| reads images.Values => images[keys[j]].Snapshot())
  }

  /**
   * The first marker from position `i` on that is active and passes both thresholds, or `None`.
   */
  function FirstPassing(ms: seq<Marker>, i: nat, f: Frame, threshold: Value, matchMin: Value,
                        ransac: (seq<Pose.Point>, seq<Pose.Point>) -> Pose.RansacOutcome): (r: Option<nat>)
    requires i <= |ms| && (forall j :: 0 <= j < |ms| ==> MarkerOk(ms[j]))
    requires FrameOk(f) && !LessThan(NoDistance, threshold)
    ensures r.Some? ==> i <= r.value < |ms|
    decreases |ms| - i
  {
    if i == |ms| then None
    else if ms[i].active && Passes(f, ms[i], threshold, matchMin, ransac) then Some(i)
    else FirstPassing(ms, i + 1, f, threshold, matchMin, ransac)
  }

  /**
   * `FirstPassing` is first-fit: the marker it names is active and passes, and no active marker
   * before it passes; when it names none, no active marker from `i` on passes.
   */
  lemma {:induction false} FirstPassingSpec(ms: seq<Marker>, i: nat, f: Frame, threshold: Value, matchMin: Value,
                                            ransac: (seq<Pose.Point>, seq<Pose.Point>) -> Pose.RansacOutcome)
    requires i <= |ms| && (forall j :: 0 <= j < |ms| ==> MarkerOk(ms[j]))
    requires FrameOk(f) && !LessThan(NoDistance, threshold)
    ensures var r := FirstPassing(ms, i, f, threshold, matchMin, ransac);
      && (r.Some? ==> i <= r.value < |ms| && ms[r.value].active && Passes(f, ms[r.value], threshold, matchMin, ransac))
      && (forall j :: i <= j < |ms| && (r.None? || j < r.value) && ms[j].active ==>
            !Passes(f, ms[j], threshold, matchMin, ransac))
    decreases |ms| - i
  {
    if i < |ms| {
      FirstPassingSpec(ms, i + 1, f, threshold, matchMin, ransac);
    }
  }

  /** `new AM.Training()`'s parameters. */
  const TrainingDefaults: Params.Params := map[
    "num_train_levels" := Number(3.0), "blur_size" := Number(3.0), "image_size_max" := Number(512.0),
    "training_corners_max" := Number(200.0), "laplacian_threshold" := Number(30.0), "eigen_threshold" := Number(25.0)]

  /** `new AM.ImageFilter()`'s parameters. */
  const FilterDefaults: Params.Params := map["blur_size" := Number(3.0), "blur" := Bool(true)]

  /** `new AM.Detection()`'s parameters. */
  const DetectionDefaults: Params.Params := map[
    "laplacian_threshold" := Number(30.0), "eigen_threshold" := Number(25.0), "detection_corners_max" := Number(500.0),
    "border_size" := Number(15.0), "fast_threshold" := Number(20.0)]

  /** `new AM.MarkerTracker()`'s own parameters. */
  const TrackerDefaults: Params.Params := map["match_min" := Number(8.0)]

  // ---------------------------------------------------------------------
  // The tracker

  /** `AM.MarkerTracker`. */
  class MarkerTracker {
    /** The `for…in` order of `_trained_images`: insertion order. */
    var keys: seq<string>
    /** `_trained_images`. */
    var images: map<string, TrainedImage>
    const matching: Matcher
    const pose: Pose.Pose
    var matchFound: bool
    /** `_matching_image`; `None` is `undefined`. */
    var matchingImage: Option<TrainedImage>
    var params: Params.Params
    /** The parameters of the tracker's `AM.Training`, `AM.ImageFilter` and `AM.Detection`. */
    var trainingParams: Params.Params
    var filterParams: Params.Params
    var detectionParams: Params.Params

    /**
     * Each uuid is one property of `_trained_images`, each property holds its own trained image with
     * consistent levels, and a match was found exactly when a matching image is recorded.
     */
    ghost predicate Valid()
      reads this, matching, images.Values
    {
      matching.Valid() && "match_min" in params && Listed() && Owned() && Trained()
      && (matchFound <==> matchingImage.Some?)
    }

    /** `keys` lists each property of `_trained_images` once. */
    ghost predicate Listed()
      reads this
    {
      Distinct(keys) && forall k :: k in images <==> k in keys
    }

    /** No two uuids share a trained image. */
    ghost predicate Owned()
      reads this
    {
      forall k, k' :: k in images && k' in images && k != k' ==> images[k] != images[k']
    }

    /** Every trained image has consistent levels. */
    ghost predicate Trained()
      reads this, images.Values
    {
      forall k :: k in images ==> Consistent(images[k].cornersLevels, images[k].descriptorsLevels)
    }

    function MatchMin(): Value
      reads this
      requires "match_min" in params
    {
      params["match_min"]
    }

    constructor (v2b: seq<int>)
      requires IsHalfWordTable(v2b)
      ensures Valid() && fresh(matching) && fresh(pose)
      ensures keys == [] && images == map[] && !matchFound && matchingImage == None
      ensures params == TrackerDefaults && trainingParams == TrainingDefaults
      ensures filterParams == FilterDefaults && detectionParams == DetectionDefaults
      ensures matching.params == map["match_threshold" := Number(DefaultThreshold)]
    {
      keys := [];
      images := map[];
      matching := new Matcher(v2b);
      pose := new Pose.Pose();
      matchFound := false;
      matchingImage := None;
      params := TrackerDefaults;
      trainingParams := TrainingDefaults;
      filterParams := FilterDefaults;
      detectionParams := DetectionDefaults;
    }

    /** The matcher and the pose hold what matching marker `m` against the screen leaves in them. */
    ghost predicate Holds(m: Marker, f: Frame, threshold: Value,
                          ransac: (seq<Pose.Point>, seq<Pose.Point>) -> Pose.RansacOutcome,
                          kernel: (seq<Pose.Point>, seq<Pose.Point>) -> Pose.Matrix)
      reads matching, pose
      requires FrameOk(f) && MarkerOk(m) && !LessThan(NoDistance, threshold)
    {
      && matching.matches == MarkerMatches(f, m.levels, threshold)
      && pose.goodCount == GoodCount(f, m.corners, m.levels, threshold, ransac)
      && pose.homography == Homography(f, m.corners, m.levels, threshold, ransac, kernel)
    }

    /** One turn of `Match`'s loop on an active marker: match its descriptors, then estimate the pose. */
    method TryMarker(m: Marker, f: Frame,
                     ransac: (seq<Pose.Point>, seq<Pose.Point>) -> Pose.RansacOutcome,
                     kernel: (seq<Pose.Point>, seq<Pose.Point>) -> Pose.Matrix)
      returns (found: bool)
      requires matching.Valid() && "match_min" in params && FrameOk(f)
      requires MarkerOk(m) && !LessThan(NoDistance, matching.Threshold())
      requires matching.screenDescriptors == Some(f.descriptors)
      modifies matching`matches, matching`numMatches, pose
      ensures found == Passes(f, m, matching.Threshold(), MatchMin(), ransac)
      ensures found ==> Holds(m, f, matching.Threshold(), ransac, kernel)
    {
      var count := matching.Match(m.levels);
      if !AtLeast(count, params["match_min"]) {
        return false;
      }
      MatchesPointAtCorners(f, m.corners, m.levels, matching.Threshold());
      var good := pose.Pose(matching.matches, count, f.corners, m.corners, ransac, kernel);
      found := AtLeast(good, params["match_min"]);
    }

    /**
     * The loop of `Match`: try the markers `ms` (the trained images in `for…in` order), skipping the
     * inactive ones, until one passes both thresholds; the answer is its position in the order.
     */
    method Scan(f: Frame, ghost ms: seq<Marker>, ransac: (seq<Pose.Point>, seq<Pose.Point>) -> Pose.RansacOutcome,
                kernel: (seq<Pose.Point>, seq<Pose.Point>) -> Pose.Matrix)
      returns (r: Option<nat>)
      requires matching.Valid() && "match_min" in params && matching.screenDescriptors == Some(f.descriptors)
      requires |ms| == |keys| && forall j :: 0 <= j < |keys| ==> keys[j] in images && ms[j] == images[keys[j]].Snapshot()
      requires forall j :: 0 <= j < |ms| ==> MarkerOk(ms[j])
      requires FrameOk(f) && !LessThan(NoDistance, matching.Threshold())
      modifies matching`matches, matching`numMatches, pose
      ensures r == FirstPassing(ms, 0, f, matching.Threshold(), MatchMin(), ransac)
      ensures r.Some? ==> Holds(ms[r.value], f, matching.Threshold(), ransac, kernel)
    {
      ghost var threshold, matchMin := matching.Threshold(), MatchMin();
      ghost var first := FirstPassing(ms, 0, f, threshold, matchMin, ransac);
      var i := 0;
      r := None;
      while i < |keys| && r.None?
        invariant 0 <= i <= |keys|
        invariant r.None? ==> first == FirstPassing(ms, i, f, threshold, matchMin, ransac)
        invariant r.Some? ==> 0 < i && r == first == Some(i - 1) && Holds(ms[i - 1], f, threshold, ransac, kernel)
        decreases |keys| - i
      {
        var m := images[keys[i]].Snapshot();
        if m.active {
          var ok := TryMarker(m, f, ransac, kernel);
          if ok {
            r := Some(i);
          }
        }
        i := i + 1;
      }
    }

    /**
     * `Match`: the first active marker, in `for…in` order, with at least `match_min` matches of which
     * at least `match_min` are RANSAC inliers. The matcher and the pose then hold that marker's
     * matches and homography.
     */
    method Match(f: Frame,
                 ransac: (seq<Pose.Point>, seq<Pose.Point>) -> Pose.RansacOutcome,
                 kernel: (seq<Pose.Point>, seq<Pose.Point>) -> Pose.Matrix)
      returns (found: bool)
      requires Valid() && FrameOk(f) && !LessThan(NoDistance, matching.Threshold())
      modifies this`matchFound, this`matchingImage, matching`screenDescriptors, matching`matches,
               matching`numMatches, pose
      ensures Valid() && matching.screenDescriptors == Some(f.descriptors)
      ensures var ms := old(Snapshots(keys, images));
        var r := FirstPassing(ms, 0, f, matching.Threshold(), MatchMin(), ransac);
        && found == matchFound == r.Some?
        && (r.None? ==> matchingImage == None)
        && (r.Some? ==>
              matchingImage == Some(images[keys[r.value]])
              && Holds(ms[r.value], f, matching.Threshold(), ransac, kernel))
    {
      // The flags are reset before the loop and set when it stops at a marker; `Record` assigns
      // them once, with the values the loop leaves.
      ghost var ms := Snapshots(keys, images);
      matching.SetScreenDescriptors(f.descriptors);
      var r := Scan(f, ms, ransac, kernel);
      Record(r);
      found := matchFound;
    }

    /** Sets the flags of `Match` to the marker at position `r` of the order, or to none. */
    method Record(r: Option<nat>)
      requires Valid() && (r.Some? ==> r.value < |keys|)
      modifies this`matchFound, this`matchingImage
      ensures Valid() && matchFound == r.Some?
      ensures matchingImage == if r.Some? then Some(images[keys[r.value]]) else None
    {
      if r.Some? {
        matchFound, matchingImage := true, Some(images[keys[r.value]]);
      } else {
        matchFound, matchingImage := false, None;
      }
    }

    /** `GetPose`: the corners of the matched marker under the last homography, or `undefined`. */
    method GetPose(poseCorners: (Pose.Matrix, int, int) -> seq<Pose.Point>) returns (r: Option<seq<Pose.Point>>)
      requires Valid()
      ensures r.None? <==> !matchFound
      ensures matchFound ==>
        r == Some(poseCorners(pose.homography, matchingImage.value.width, matchingImage.value.height))
    {
      if matchFound {
        r := Some(poseCorners(pose.homography, matchingImage.value.width, matchingImage.value.height));
      } else {
        r := None;
      }
    }

    /**
     * `AddMarker`: store a fresh active trained image holding `t`, the result of training the image,
     * under `uuid`; a uuid already present keeps its place in the order and loses its old image.
     */
    method AddMarker(t: TrainingResult, uuid: string)
      requires Valid() && Consistent(t.cornersLevels, t.descriptorsLevels)
      modifies this`keys, this`images
      ensures Valid()
      ensures keys == if uuid in old(images) then old(keys) else old(keys) + [uuid]
      ensures images.Keys == old(images).Keys + {uuid}
      ensures forall k :: k in old(images) && k != uuid ==> images[k] == old(images)[k]
      ensures fresh(images[uuid]) && images[uuid].Stores(t, uuid)
    {
      var ti := NewTrainedImage(uuid, t);
      if uuid !in images {
        keys := keys + [uuid];
      }
      images := images[uuid := ti];
    }

    /** `RemoveMarker`: forget `uuid`; an unknown uuid changes nothing. */
    method RemoveMarker(uuid: string)
      requires Valid()
      modifies this`keys, this`images
      ensures Valid()
      ensures images == old(images) - {uuid} && keys == Without(old(keys), uuid)
      ensures uuid !in old(images) ==> keys == old(keys)
    {
      if uuid in images {
        images := images - {uuid};
        keys := Without(keys, uuid);
      } else {
        WithoutAbsent(keys, uuid);
      }
    }

    /**
     * `ActiveMarker`: set the flag of `uuid`'s marker and nothing else of it; an unknown uuid
     * changes nothing.
     */
    method ActiveMarker(uuid: string, v: Value)
      requires Valid()
      modifies (if uuid in images then {images[uuid]} else {})`active
      ensures Valid()
      ensures uuid in images ==> (images[uuid].active <==> v == Bool(true))
      ensures uuid in images ==>
        images[uuid].Snapshot() == old(images[uuid].Snapshot()).(active := v == Bool(true))
      ensures uuid in images ==>
        var ti := images[uuid];
        ti.empty == old(ti.empty) && ti.width == old(ti.width) && ti.height == old(ti.height)
        && ti.uuid == old(ti.uuid)
    {
      if uuid in images {
        images[uuid].Active(v);
      }
    }

    /** `ActiveAllMarkers`: set the flag of every marker, and nothing else of them. */
    method ActiveAllMarkers(v: Value)
      requires Valid()
      modifies images.Values`active
      ensures Valid()
      ensures forall k :: k in images ==> (images[k].active <==> v == Bool(true))
      ensures forall k :: k in images ==>
        images[k].cornersLevels == old(images[k].cornersLevels)
        && images[k].descriptorsLevels == old(images[k].descriptorsLevels)
      ensures forall k :: k in images ==>
        images[k].empty == old(images[k].empty) && images[k].uuid == old(images[k].uuid)
        && images[k].width == old(images[k].width) && images[k].height == old(images[k].height)
    {
      var i := 0;
      while i < |keys|
        invariant 0 <= i <= |keys|
        invariant forall j :: 0 <= j < i ==> (images[keys[j]].active <==> v == Bool(true))
        invariant forall k :: k in images ==>
          images[k].cornersLevels == old(images[k].cornersLevels)
          && images[k].descriptorsLevels == old(images[k].descriptorsLevels)
        invariant forall k :: k in images ==>
          images[k].empty == old(images[k].empty) && images[k].uuid == old(images[k].uuid)
          && images[k].width == old(images[k].width) && images[k].height == old(images[k].height)
      {
        images[keys[i]].Active(v);
        i := i + 1;
      }
    }

    /**
     * Deactivating an active marker and activating it again leaves every trained image as it was,
     * so matching sees the same markers as before.
     */
    method DeactivateThenReactivate(uuid: string)
      requires Valid() && uuid in images && images[uuid].active
      modifies images[uuid]
      ensures Valid() && unchanged(images[uuid])
      ensures Snapshots(keys, images) == old(Snapshots(keys, images))
    {
      ghost var before := images[uuid].Snapshot();
      ActiveMarker(uuid, Bool(false));
      ActiveMarker(uuid, Bool(true));
      assert images[uuid].Snapshot() == before;
    }

    /** `ClearMarkers`: no marker is left; the last match is still remembered. */
    method ClearMarkers()
      requires Valid()
      modifies this`keys, this`images
      ensures Valid() && keys == [] && images == map[]
    {
      keys := [];
      images := map[];
    }

    /**
     * `SetParameters`: the same argument is merged into the tracker's own parameters and those of
     * its training, image filter, detection and matching components.
     */
    method SetParameters(u: Params.Update)
      requires Valid()
      modifies this`params, this`trainingParams, this`filterParams, this`detectionParams, matching`params
      ensures Valid()
      ensures params == Params.Merged(old(params), u) && trainingParams == Params.Merged(old(trainingParams), u)
      ensures filterParams == Params.Merged(old(filterParams), u)
      ensures detectionParams == Params.Merged(old(detectionParams), u)
      ensures matching.params == Params.Merged(old(matching.params), u)
    {
      Params.MergedKeys(params, u);
      params := Params.MergeParameters(params, u);
      trainingParams := Params.MergeParameters(trainingParams, u);
      filterParams := Params.MergeParameters(filterParams, u);
      detectionParams := Params.MergeParameters(detectionParams, u);
      matching.SetParameters(u);
    }

    /** `GetMatchUuid` as written: without a match it reads a property of `undefined`. */
    method GetMatchUuidAsWritten() returns (r: Outcome<string>)
      requires Valid()
      ensures !matchFound ==> r == Throws(TypeError)
      ensures matchFound ==> r == Ok(matchingImage.value.uuid)
    {
      match matchingImage
      case None => r := Throws(TypeError);
      case Some(ti) => r := Ok(ti.uuid);
    }

    /** `GetMatchUuid` as intended: like `GetPose`, `undefined` when the last `Match` failed. */
    method GetMatchUuid() returns (r: Option<string>)
      requires Valid()
      ensures r.None? <==> !matchFound
      ensures matchFound ==> r == Some(matchingImage.value.uuid)
    {
      match matchingImage
      case None => r := None;
      case Some(ti) => r := Some(ti.uuid);
    }

    /** `GetTrainedCorners` as written: the name `uuid` is bound nowhere in its scope. */
    method GetTrainedCornersAsWritten() returns (r: Outcome<seq<seq<Keypoint>>>)
      ensures r.Throws? && r.error == ReferenceError
    {
      r := Throws(ReferenceError);
    }

    /** `GetTrainedCorners` with the uuid as its parameter: the corner levels of that marker. */
    method GetTrainedCorners(uuid: string) returns (r: Outcome<seq<seq<Keypoint>>>)
      requires Valid()
      ensures r.Ok? <==> uuid in images
      ensures r.Ok? ==> r.value == images[uuid].cornersLevels
      ensures r.Throws? ==> r.error == TypeError
    {
      if uuid in images {
        r := Ok(images[uuid].cornersLevels);
      } else {
        r := Throws(TypeError);
      }
    }
  }

  /** Before any match, the uuid of the last match cannot be read as written. */
  method UuidBeforeAnyMatch(v2b: seq<int>) returns (r: Outcome<string>)
    requires IsHalfWordTable(v2b)
    ensures r == Throws(TypeError)
  {
    var tracker := new MarkerTracker(v2b);
    r := tracker.GetMatchUuidAsWritten();
  }

  /** Without a match, the intended `GetMatchUuid` answers `undefined` instead. */
  method UuidBeforeAnyMatchIntended(v2b: seq<int>) returns (r: Option<string>)
    requires IsHalfWordTable(v2b)
    ensures r == None
  {
    var tracker := new MarkerTracker(v2b);
    r := tracker.GetMatchUuid();
  }

  /** Right after a marker is added, its corners cannot be read back as written... */
  method CornersAfterAddAsWritten(v2b: seq<int>, t: TrainingResult, uuid: string)
    returns (r: Outcome<seq<seq<Keypoint>>>)
    requires IsHalfWordTable(v2b) && Consistent(t.cornersLevels, t.descriptorsLevels)
    ensures r == Throws(ReferenceError)
  {
    var tracker := new MarkerTracker(v2b);
    tracker.AddMarker(t, uuid);
    r := tracker.GetTrainedCornersAsWritten();
  }

  /** ...while the intended version returns exactly the corner levels the training produced. */
  method CornersAfterAdd(v2b: seq<int>, t: TrainingResult, uuid: string)
    returns (r: Outcome<seq<seq<Keypoint>>>)
    requires IsHalfWordTable(v2b) && Consistent(t.cornersLevels, t.descriptorsLevels)
    ensures r == Ok(t.cornersLevels)
  {
    var tracker := new MarkerTracker(v2b);
    tracker.AddMarker(t, uuid);
    r := tracker.GetTrainedCorners(uuid);
  }
}
