/**
 * Conversion of one frame's tracking result into the list of detection records
 * (`_detections_to_json`): an order-preserving filter on confidence that attaches
 * the track id and the class name of every kept box.
 */
module Detections {
  import opened Common

  /** The default confidence threshold. */
  const DefaultConfThresh: real := 0.6

  /** Track id written for a detection when the tracker assigned no ids. */
  const Untracked: int := -1

  datatype BBox = BBox(x1: real, y1: real, x2: real, y2: real)

  /** The per-box columns of a tracking result: corners, confidence, class id and,
      when the tracker assigned them, track ids. */
  datatype Boxes = Boxes(xyxy: seq<BBox>, conf: seq<real>, cls: seq<int>, id: Option<seq<int>>)

  /** The columns describe the same boxes, as the tensors of one result always do. */
  predicate WellShaped(b: Boxes)
  {
    |b.conf| == |b.xyxy| && |b.cls| == |b.xyxy| && (b.id.Some? ==> |b.id.value| == |b.xyxy|)
  }

  datatype Detection = Detection(trackId: int, classId: int, className: string, confidence: real, bbox: BBox)

  /** The indices below `n` whose confidence reaches the threshold, in increasing order. */
  function KeptIndices(conf: seq<real>, thresh: real, n: nat): (r: seq<nat>)
    requires n <= |conf|
    ensures |r| <= n
    ensures forall j :: 0 <= j < |r| ==> r[j] < n && conf[r[j]] >= thresh
    ensures forall j, k :: 0 <= j < k < |r| ==> r[j] < r[k]
    ensures forall i :: 0 <= i < n && conf[i] >= thresh ==> i in r
  {
    if n == 0 then [] else KeptIndices(conf, thresh, n - 1) + (if conf[n - 1] >= thresh then [n - 1] else [])
  }

  /** The record written for box `i`. */
  function MakeDetection(b: Boxes, names: map<int, string>, i: nat): Detection
    requires WellShaped(b) && i < |b.xyxy| && b.cls[i] in names
  {
    Detection(if b.id.None? then Untracked else b.id.value[i], b.cls[i], names[b.cls[i]], b.conf[i], b.xyxy[i])
  }

  /** The records for the first `n` boxes, or the class id whose name lookup fails first. */
  function ToJsonUpTo(b: Boxes, names: map<int, string>, thresh: real, n: nat): Result<seq<Detection>, int>
    requires WellShaped(b) && n <= |b.xyxy|
  {
    if n == 0 then Ok([])
    else match ToJsonUpTo(b, names, thresh, n - 1)
      case Err(c) => Err(c)
      case Ok(dets) =>
        if b.conf[n - 1] < thresh then Ok(dets)
        else if b.cls[n - 1] !in names then Err(b.cls[n - 1])
        else Ok(dets + [MakeDetection(b, names, n - 1)])
  }

  /** The result of `_detections_to_json`: the records, or the unknown class id that raises.
      The error it raises with is a class id the model does not name, and it never returns
      more records than there are boxes; `ToJsonSpec` states the rest. */
  function ToJson(b: Boxes, names: map<int, string>, thresh: real): (r: Result<seq<Detection>, int>)
    requires WellShaped(b)
    ensures r.Err? ==> r.error !in names
    ensures r.Ok? ==> |r.value| <= |b.xyxy|
  {
    ToJsonUpToBounds(b, names, thresh, |b.xyxy|);
    ToJsonUpTo(b, names, thresh, |b.xyxy|)
  }

  /** The conversion of the first `n` boxes raises only with a class id the model does not
      name, and yields at most one record per box. */
  lemma {:induction false} ToJsonUpToBounds(b: Boxes, names: map<int, string>, thresh: real, n: nat)
    requires WellShaped(b) && n <= |b.xyxy|
    ensures ToJsonUpTo(b, names, thresh, n).Err? ==> ToJsonUpTo(b, names, thresh, n).error !in names
    ensures ToJsonUpTo(b, names, thresh, n).Ok? ==> |ToJsonUpTo(b, names, thresh, n).value| <= n
  {
    if n > 0 {
      ToJsonUpToBounds(b, names, thresh, n - 1);
    }
  }

  /** Every kept box among the first `n` has a class the model names. */
  predicate AllKnownUpTo(b: Boxes, names: map<int, string>, thresh: real, n: nat)
    requires WellShaped(b) && n <= |b.xyxy|
  {
    var kept := KeptIndices(b.conf, thresh, n);
    forall j :: 0 <= j < |kept| ==> b.cls[kept[j]] in names
  }

  /** When every kept box has a named class, the conversion succeeds with exactly one record
      per box whose confidence reaches the threshold, in index order. */
  lemma {:induction false} ToJsonUpToRecords(b: Boxes, names: map<int, string>, thresh: real, n: nat)
    requires WellShaped(b) && n <= |b.xyxy|
    requires AllKnownUpTo(b, names, thresh, n)
    ensures var kept := KeptIndices(b.conf, thresh, n);
      && ToJsonUpTo(b, names, thresh, n).Ok?
      && |ToJsonUpTo(b, names, thresh, n).value| == |kept|
      && forall j :: 0 <= j < |kept| ==> ToJsonUpTo(b, names, thresh, n).value[j] == MakeDetection(b, names, kept[j])
  {
    if n > 0 {
      var prev := KeptIndices(b.conf, thresh, n - 1);
      var kept := KeptIndices(b.conf, thresh, n);
      assert kept[..|prev|] == prev;
      assert AllKnownUpTo(b, names, thresh, n - 1) by {
        forall j | 0 <= j < |prev| ensures b.cls[prev[j]] in names {
          assert prev[j] == kept[j];
        }
      }
      ToJsonUpToRecords(b, names, thresh, n - 1);
      if b.conf[n - 1] >= thresh {
        assert kept[|prev|] == n - 1;
      }
    }
  }

  /** Position `j` of the kept boxes below `n` is the first whose class is unnamed, and its class is `c`. */
  predicate FirstUnknownAt(b: Boxes, names: map<int, string>, thresh: real, n: nat, j: nat, c: int)
    requires WellShaped(b) && n <= |b.xyxy|
  {
    var kept := KeptIndices(b.conf, thresh, n);
    && j < |kept|
    && b.cls[kept[j]] !in names
    && c == b.cls[kept[j]]
    && forall k :: 0 <= k < j ==> b.cls[kept[k]] in names
  }

  /** When some kept box has an unnamed class, the conversion raises with the class
      of the first such box. */
  lemma {:induction false} ToJsonUpToFails(b: Boxes, names: map<int, string>, thresh: real, n: nat)
    requires WellShaped(b) && n <= |b.xyxy|
    requires !AllKnownUpTo(b, names, thresh, n)
    ensures ToJsonUpTo(b, names, thresh, n).Err?
    ensures exists j :: FirstUnknownAt(b, names, thresh, n, j, ToJsonUpTo(b, names, thresh, n).error)
  {
    if AllKnownUpTo(b, names, thresh, n - 1) {
      FailsAtLast(b, names, thresh, n);
    } else {
      ToJsonUpToFails(b, names, thresh, n - 1);
      var c := ToJsonUpTo(b, names, thresh, n - 1).error;
      var j :| FirstUnknownAt(b, names, thresh, n - 1, j, c);
      FirstUnknownExtends(b, names, thresh, n, j, c);
    }
  }

  lemma FailsAtLast(b: Boxes, names: map<int, string>, thresh: real, n: nat)
    requires WellShaped(b) && 0 < n <= |b.xyxy|
    requires AllKnownUpTo(b, names, thresh, n - 1) && !AllKnownUpTo(b, names, thresh, n)
    ensures ToJsonUpTo(b, names, thresh, n) == Err(b.cls[n - 1])
    ensures FirstUnknownAt(b, names, thresh, n, |KeptIndices(b.conf, thresh, n - 1)|, b.cls[n - 1])
  {
    var prev := KeptIndices(b.conf, thresh, n - 1);
    var kept := KeptIndices(b.conf, thresh, n);
    ToJsonUpToRecords(b, names, thresh, n - 1);
    assert kept == prev + [n - 1];
    forall k | 0 <= k < |prev| ensures b.cls[kept[k]] in names {
      assert kept[k] == prev[k];
    }
  }

  lemma FirstUnknownExtends(b: Boxes, names: map<int, string>, thresh: real, n: nat, j: nat, c: int)
    requires WellShaped(b) && 0 < n <= |b.xyxy|
    requires ToJsonUpTo(b, names, thresh, n - 1) == Err(c)
    requires FirstUnknownAt(b, names, thresh, n - 1, j, c)
    ensures ToJsonUpTo(b, names, thresh, n) == Err(c)
    ensures FirstUnknownAt(b, names, thresh, n, j, c)
  {
  }

  /** What `_detections_to_json` promises: it succeeds exactly when every box that reaches
      the threshold has a named class; then it returns one record per such box, in index
      order, whose track id is -1 without tracker ids and the box's id otherwise, and whose
      class name is the model's name for its class id; otherwise it raises with the class
      of the first kept box that has no name. */
  lemma ToJsonSpec(b: Boxes, names: map<int, string>, thresh: real)
    requires WellShaped(b)
    ensures ToJson(b, names, thresh).Ok? <==> AllKnownUpTo(b, names, thresh, |b.xyxy|)
    ensures var kept := KeptIndices(b.conf, thresh, |b.xyxy|);
      ToJson(b, names, thresh).Ok? ==>
        var dets := ToJson(b, names, thresh).value;
        && |dets| == |kept| <= |b.xyxy|
        && forall j :: 0 <= j < |dets| ==>
             && b.cls[kept[j]] in names
             && dets[j].trackId == (if b.id.None? then -1 else b.id.value[kept[j]])
             && dets[j].classId == b.cls[kept[j]]
             && dets[j].className == names[b.cls[kept[j]]]
             && dets[j].confidence == b.conf[kept[j]] >= thresh
             && dets[j].bbox == b.xyxy[kept[j]]
    ensures ToJson(b, names, thresh).Err? ==>
      exists j :: FirstUnknownAt(b, names, thresh, |b.xyxy|, j, ToJson(b, names, thresh).error)
  {
    if AllKnownUpTo(b, names, thresh, |b.xyxy|) {
      ToJsonUpToRecords(b, names, thresh, |b.xyxy|);
    } else {
      ToJsonUpToFails(b, names, thresh, |b.xyxy|);
    }
  }

  /** A box is kept exactly when its confidence is at least the threshold; a confidence
      equal to the threshold is kept. */
  lemma KeptIff(conf: seq<real>, thresh: real, i: nat)
    requires i < |conf|
    ensures i in KeptIndices(conf, thresh, |conf|) <==> conf[i] >= thresh
  {
  }

  /** `_detections_to_json`: walk the boxes in order, skip those below the threshold,
      and append one record per kept box; a class id missing from `names` raises. */
  method DetectionsToJson(results: Boxes, names: map<int, string>, confThresh: real)
    returns (r: Result<seq<Detection>, int>)
    requires WellShaped(results)
    ensures r == ToJson(results, names, confThresh)
  {
    var detections: seq<Detection> := [];
    var i := 0;
    while i < |results.xyxy|
      invariant 0 <= i <= |results.xyxy|
      invariant ToJsonUpTo(results, names, confThresh, i) == Ok(detections)
    {
      var conf := results.conf[i];
      if conf < confThresh {
        i := i + 1;
        continue;
      }
      var cls := results.cls[i];
      var trackId := if results.id.Some? then results.id.value[i] else Untracked;
      if cls !in names {
        ErrPersists(results, names, confThresh, i + 1, |results.xyxy|);
        return Err(cls);
      }
      detections := detections + [Detection(trackId, cls, names[cls], conf, results.xyxy[i])];
      i := i + 1;
    }
    r := Ok(detections);
  }

  /** Once the conversion has raised, later boxes do not change the error. */
  lemma {:induction false} ErrPersists(b: Boxes, names: map<int, string>, thresh: real, m: nat, n: nat)
    requires WellShaped(b) && m <= n <= |b.xyxy|
    requires ToJsonUpTo(b, names, thresh, m).Err?
    ensures ToJsonUpTo(b, names, thresh, n) == ToJsonUpTo(b, names, thresh, m)
    decreases n - m
  {
    if m < n {
      ErrPersists(b, names, thresh, m, n - 1);
    }
  }
}
