/**
 * The per-frame bookkeeping of the inference loop: the frame counter, the two payloads
 * assembled for every frame, and the rate limiter that hands every eighth frame's payload
 * to the single background sender. The detector, the metrics, the alert rules and the
 * clock behind the FPS figure are collaborators whose per-frame answers are inputs here.
 */
module InferenceEngine {
  import opened Common
  import opened Detections

  /** A payload is submitted on every frame whose id is a multiple of this. */
  const SendEveryN: nat := 8

  /** The collector endpoint used when `BACKEND_URL` is unset. */
  const DefaultBackendUrl: string := "https://10komu-traffic-camera.hf.space/update"

  /** The send timeout, in seconds, used when `BACKEND_TIMEOUT` is unset. */
  const DefaultBackendTimeout: real := 2.0

  /** The collector endpoint: the value of `BACKEND_URL`, or the default when it is unset. */
  function BackendUrl(env: Option<string>): (url: string)
    ensures env.None? ==> url == DefaultBackendUrl
    ensures env.Some? ==> url == env.value
  {
    match env
    case None => DefaultBackendUrl
    case Some(v) => v
  }

  /** The send timeout: the value of `BACKEND_TIMEOUT`, or 2 seconds when it is unset. */
  function BackendTimeout(env: Option<real>): (timeout: real)
    ensures env.None? ==> timeout == 2.0
    ensures env.Some? ==> timeout == env.value
  {
    match env
    case None => DefaultBackendTimeout
    case Some(v) => v
  }

  /** The full payload carries the detections and their number; the light one only
      the FPS figure, the metrics and the alerts. */
  datatype Payload<M, A> =
    | Full(fps: real, numDetections: int, detections: seq<Detection>, metrics: M, alerts: A)
    | Light(fps: real, metrics: M, alerts: A)

  /** The two payloads assembled for a frame, full first. */
  function AssemblePayloads<M, A>(fps: real, dets: seq<Detection>, metrics: M, alerts: A)
    : (r: (Payload<M, A>, Payload<M, A>))
    ensures r.0.Full? && r.0.detections == dets && r.0.numDetections == |r.0.detections|
    ensures r.1.Light?
    ensures r.0.fps == r.1.fps == fps && r.0.metrics == r.1.metrics == metrics && r.0.alerts == r.1.alerts == alerts
  {
    (Full(fps, |dets|, dets, metrics, alerts), Light(fps, metrics, alerts))
  }

  /** What the collaborators answer for one frame: the tracking result, the FPS figure,
      the traffic metrics and the alerts. */
  datatype FrameInput<M, A> = FrameInput(results: Boxes, fps: real, metrics: M, alerts: A)

  /** The full payload of a frame, or the unknown class id that makes its conversion raise. */
  function FrameOutput<M, A>(f: FrameInput<M, A>, names: map<int, string>): (r: Result<Payload<M, A>, int>)
    requires WellShaped(f.results)
    ensures r.Ok? <==> ToJson(f.results, names, DefaultConfThresh).Ok?
    ensures r.Ok? ==>
      && r.value.Full?
      && r.value.detections == ToJson(f.results, names, DefaultConfThresh).value
      && r.value.numDetections == |r.value.detections|
      && r.value.fps == f.fps && r.value.metrics == f.metrics && r.value.alerts == f.alerts
    ensures r.Err? ==> r.error == ToJson(f.results, names, DefaultConfThresh).error
  {
    match ToJson(f.results, names, DefaultConfThresh)
    case Err(c) => Err(c)
    case Ok(dets) => Ok(AssemblePayloads(f.fps, dets, f.metrics, f.alerts).0)
  }

  /** The rate-limit decision for a frame. */
  predicate ShouldSend(frameId: int): (due: bool)
    ensures due <==> frameId == SendEveryN * (frameId / SendEveryN)
    ensures due ==> (frameId + SendEveryN) % SendEveryN == 0 && (frameId + 1) % SendEveryN != 0
  {
    frameId % SendEveryN == 0
  }

  /** The frame ids in (a, b] that are due for a send, in increasing order. */
  function MultiplesBetween(a: int, b: int): (r: seq<int>)
    decreases b - a
  {
    if b <= a then [] else MultiplesBetween(a, b - 1) + (if ShouldSend(b) then [b] else [])
  }

  /** The due frame ids in (a, b] are exactly the multiples of 8 in that range, each once,
      in increasing order. */
  lemma {:induction false} MultiplesBetweenExact(a: int, b: int)
    ensures forall j :: 0 <= j < |MultiplesBetween(a, b)| ==>
      a < MultiplesBetween(a, b)[j] <= b && ShouldSend(MultiplesBetween(a, b)[j])
    ensures forall i :: a < i <= b && ShouldSend(i) ==> i in MultiplesBetween(a, b)
    ensures forall j, k :: 0 <= j < k < |MultiplesBetween(a, b)| ==> MultiplesBetween(a, b)[j] < MultiplesBetween(a, b)[k]
    decreases b - a
  {
    if b > a {
      MultiplesBetweenExact(a, b - 1);
    }
  }

  /** From frame 0, after k frames exactly k div 8 sends are due, at frames 8, 16, ... */
  lemma {:induction false} SendsFromStart(k: nat)
    ensures |MultiplesBetween(0, k)| == k / SendEveryN
    ensures forall j :: 0 <= j < |MultiplesBetween(0, k)| ==> MultiplesBetween(0, k)[j] == SendEveryN * (j + 1)
  {
    if k > 0 {
      SendsFromStart(k - 1);
      if ShouldSend(k) {
        assert k / SendEveryN == (k - 1) / SendEveryN + 1;
        assert SendEveryN * ((k - 1) / SendEveryN + 1) == k;
      } else {
        assert k / SendEveryN == (k - 1) / SendEveryN;
      }
    }
  }

  /** One task handed to the background sender. */
  datatype Submission<M, A> = Submission(url: string, payload: Payload<M, A>, timeout: real)

  /** The detections of frame `f` convert without raising. */
  ghost predicate Converts<M, A>(f: FrameInput<M, A>, names: map<int, string>)
  {
    WellShaped(f.results) && FrameOutput(f, names).Ok?
  }

  /** `s` is the task submitted for the frame `f`: its full payload, with the URL and timeout. */
  ghost predicate Carries<M, A>(s: Submission<M, A>, f: FrameInput<M, A>, names: map<int, string>, url: string, timeout: real)
  {
    WellShaped(f.results) && FrameOutput(f, names).Ok? && s == Submission(url, FrameOutput(f, names).value, timeout)
  }

  /** The tasks submitted while processing the first `n` frames of `frames`, when the frame
      ids before the first of them end at `base`: one per frame whose id is due, carrying
      that frame's full payload. */
  ghost function SendsFor<M, A>(frames: seq<FrameInput<M, A>>, n: nat, base: int, names: map<int, string>,
                                url: string, timeout: real): seq<Submission<M, A>>
    requires n <= |frames| && forall k :: 0 <= k < n ==> Converts(frames[k], names)
  {
    if n == 0 then []
    else
      assert Converts(frames[n - 1], names);
      SendsFor(frames, n - 1, base, names, url, timeout)
      + (if ShouldSend(base + n) then [Submission(url, FrameOutput(frames[n - 1], names).value, timeout)] else [])
  }

  /** The `j`-th task for the first `n` frames belongs to the frame whose id is the `j`-th due
      id after `base`, and carries that frame's payload. */
  lemma {:induction false} SendsForCarry<M, A>(frames: seq<FrameInput<M, A>>, n: nat, base: int, names: map<int, string>,
                                               url: string, timeout: real)
    requires n <= |frames| && forall k :: 0 <= k < n ==> Converts(frames[k], names)
    ensures |SendsFor(frames, n, base, names, url, timeout)| == |MultiplesBetween(base, base + n)|
    ensures forall j :: 0 <= j < |MultiplesBetween(base, base + n)| ==>
      0 <= MultiplesBetween(base, base + n)[j] - base - 1 < n
      && Carries(SendsFor(frames, n, base, names, url, timeout)[j], frames[MultiplesBetween(base, base + n)[j] - base - 1], names, url, timeout)
  {
    if n > 0 {
      SendsForCarry(frames, n - 1, base, names, url, timeout);
      MultiplesBetweenExact(base, base + n - 1);
    }
  }

  /** The same facts read off the engine's whole task list, after the tasks it held before. */
  lemma SubmittedCarry<M, A>(sentBefore: seq<int>, submittedBefore: seq<Submission<M, A>>,
                             sentAt: seq<int>, submitted: seq<Submission<M, A>>,
                             frames: seq<FrameInput<M, A>>, n: nat, base: int, names: map<int, string>,
                             url: string, timeout: real)
    requires n <= |frames| && forall k :: 0 <= k < n ==> Converts(frames[k], names)
    requires |sentBefore| == |submittedBefore|
    requires sentAt == sentBefore + MultiplesBetween(base, base + n)
    requires submitted == submittedBefore + SendsFor(frames, n, base, names, url, timeout)
    ensures |sentAt| == |submitted| && submitted[..|submittedBefore|] == submittedBefore
    ensures forall j :: |sentBefore| <= j < |sentAt| ==>
      0 <= sentAt[j] - base - 1 < |frames| && Carries(submitted[j], frames[sentAt[j] - base - 1], names, url, timeout)
  {
    SendsForCarry(frames, n, base, names, url, timeout);
    assert submitted[..|submittedBefore|] == submittedBefore;
    forall j | |sentBefore| <= j < |sentAt|
      ensures 0 <= sentAt[j] - base - 1 < |frames| && Carries(submitted[j], frames[sentAt[j] - base - 1], names, url, timeout)
    {
      assert sentAt[j] == MultiplesBetween(base, base + n)[j - |sentBefore|];
      assert submitted[j] == SendsFor(frames, n, base, names, url, timeout)[j - |sentBefore|];
    }
  }

  /** How a run of the loop ends: the source is exhausted, or a frame's conversion raised. */
  datatype RunOutcome = Completed | Aborted(frame: nat, unknownClass: int)

  class Engine<M, A> {
    /** The class names of the loaded model. */
    const names: map<int, string>
    /** The id of the last frame processed. */
    var frameId: int
    /** The tasks submitted to the background sender, in submission order. */
    var submitted: seq<Submission<M, A>>
    /** The frame id at which each task was submitted. */
    ghost var sentAt: seq<int>

    ghost predicate Valid()
      reads this
    {
      frameId >= 0 && |sentAt| == |submitted|
    }

    constructor (names: map<int, string>)
      ensures Valid()
      ensures this.names == names && frameId == 0 && submitted == [] && sentAt == []
    {
      this.names := names;
      frameId := 0;
      submitted := [];
      sentAt := [];
    }

    /** One iteration of the loop: count the frame, convert its detections, assemble the
        payloads, and submit the full payload when the frame id is a multiple of 8. */
    method ProcessFrame(f: FrameInput<M, A>, url: string, timeout: real) returns (r: Result<Payload<M, A>, int>)
      requires Valid() && WellShaped(f.results)
      modifies this
      ensures Valid()
      ensures frameId == old(frameId) + 1
      ensures r == FrameOutput(f, names)
      ensures r.Ok? && ShouldSend(frameId) ==>
        submitted == old(submitted) + [Submission(url, r.value, timeout)] && sentAt == old(sentAt) + [frameId]
      ensures !(r.Ok? && ShouldSend(frameId)) ==> submitted == old(submitted) && sentAt == old(sentAt)
    {
      frameId := frameId + 1;
      var detectionsJson := DetectionsToJson(f.results, names, DefaultConfThresh);
      if detectionsJson.Err? {
        return Err(detectionsJson.error);
      }
      var (output, lightOutput) := AssemblePayloads(f.fps, detectionsJson.value, f.metrics, f.alerts);
      if ShouldSend(frameId) {
        submitted := submitted + [Submission(url, output, timeout)];
        sentAt := sentAt + [frameId];
      }
      r := Ok(output);
    }

    /** The loop over all frames of the source. Every processed frame advances the counter by
        one and a conversion that raises ends the loop; the tasks submitted are those that
        `SendsFor` lists for the frames processed, at the due frame ids after the starting one. */
    method ProcessFrames(frames: seq<FrameInput<M, A>>, url: string, timeout: real) returns (outcome: RunOutcome)
      requires Valid()
      requires forall k :: 0 <= k < |frames| ==> WellShaped(frames[k].results)
      modifies this
      ensures Valid()
      ensures outcome.Completed? ==>
        frameId == old(frameId) + |frames| && forall k :: 0 <= k < |frames| ==> Converts(frames[k], names)
      ensures outcome.Aborted? ==>
        && outcome.frame < |frames|
        && frameId == old(frameId) + outcome.frame + 1
        && FrameOutput(frames[outcome.frame], names) == Err(outcome.unknownClass)
        && forall k :: 0 <= k < outcome.frame ==> Converts(frames[k], names)
      ensures var n := if outcome.Completed? then |frames| else outcome.frame;
        && sentAt == old(sentAt) + MultiplesBetween(old(frameId), old(frameId) + n)
        && submitted == old(submitted) + SendsFor(frames, n, old(frameId), names, url, timeout)
    {
      var i := 0;
      while i < |frames|
        invariant 0 <= i <= |frames|
        invariant Valid()
        invariant frameId == old(frameId) + i
        invariant forall k :: 0 <= k < i ==> Converts(frames[k], names)
        invariant sentAt == old(sentAt) + MultiplesBetween(old(frameId), frameId)
        invariant submitted == old(submitted) + SendsFor(frames, i, old(frameId), names, url, timeout)
      {
        var r := ProcessFrame(frames[i], url, timeout);
        if r.Err? {
          return Aborted(i, r.error);
        }
        i := i + 1;
      }
      return Completed;
    }

    /** `run`: read the collector URL and the send timeout from `BACKEND_URL` and
        `BACKEND_TIMEOUT`, then loop over the frames. Every processed frame advances the
        counter by one; the sends are exactly those due at the frames that converted, each
        carrying that frame's full payload; a conversion that raises ends the run. */
    method Run(frames: seq<FrameInput<M, A>>, urlEnv: Option<string>, timeoutEnv: Option<real>) returns (outcome: RunOutcome)
      requires Valid()
      requires forall k :: 0 <= k < |frames| ==> WellShaped(frames[k].results)
      modifies this
      ensures Valid()
      ensures outcome.Completed? ==>
        frameId == old(frameId) + |frames| && forall k :: 0 <= k < |frames| ==> Converts(frames[k], names)
      ensures outcome.Aborted? ==>
        && outcome.frame < |frames|
        && frameId == old(frameId) + outcome.frame + 1
        && FrameOutput(frames[outcome.frame], names) == Err(outcome.unknownClass)
        && forall k :: 0 <= k < outcome.frame ==> Converts(frames[k], names)
      ensures sentAt == old(sentAt) + MultiplesBetween(old(frameId), if outcome.Completed? then frameId else frameId - 1)
      ensures submitted[..|old(submitted)|] == old(submitted)
      ensures forall j :: |old(sentAt)| <= j < |sentAt| ==>
        0 <= sentAt[j] - old(frameId) - 1 < |frames|
        && Carries(submitted[j], frames[sentAt[j] - old(frameId) - 1], names, BackendUrl(urlEnv), BackendTimeout(timeoutEnv))
      ensures old(frameId) == 0 && outcome.Completed? ==> |submitted| - |old(submitted)| == |frames| / SendEveryN
    {
      var url, timeout := BackendUrl(urlEnv), BackendTimeout(timeoutEnv);
      outcome := ProcessFrames(frames, url, timeout);
      var n := if outcome.Completed? then |frames| else outcome.frame;
      SubmittedCarry(old(sentAt), old(submitted), sentAt, submitted, frames, n, old(frameId), names, url, timeout);
      SendsFromStart(|frames|);
    }
  }

  /** What `requests.post` did: it answered with some status, or it raised. */
  datatype PostResult = Responded(status: int) | Raised(message: string)

  const SendFailedPrefix: string := "[WARN] Backend send failed: "

  /** `_send_to_backend`: it always returns normally. A post that raises is caught and yields
      one warning line; a post that answers, whatever its status, yields none. */
  function SendToBackend(post: PostResult): (warning: Option<string>)
    ensures warning.Some? <==> post.Raised?
    ensures post.Raised? ==> warning.value == SendFailedPrefix + post.message
  {
    match post
    case Responded(_) => None
    case Raised(message) => Some(SendFailedPrefix + message)
  }
}
