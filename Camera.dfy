/** Model of CameraManager: the face-height to distance conversion, the per-frame
    analyzer (one reported distance per frame with an image, exactly one release of
    every frame), and the camera provider's bind state driven by
    startFaceDetection / stopFaceDetection. The CameraX provider, the ML Kit
    detector and the executors are replaced by explicit outcomes passed in. */
module Camera {

  /** The empirical constant of calculateDistance: distance = DistanceFactor / height. */
  const DistanceFactor: int := 4000

  /** The value reported when no usable face measurement exists. */
  const NoDistance: real := -1.0

  /** Estimated distance for a face bounding box `faceHeight` pixels tall. */
  function CalculateDistance(faceHeight: int): (d: real)
    ensures faceHeight <= 0 ==> d == NoDistance
    ensures faceHeight > 0 ==> d > 0.0 && d * faceHeight as real == DistanceFactor as real
  {
    if faceHeight <= 0 then NoDistance
    else DistanceFactor as real / faceHeight as real
  }

  /** A taller face box always means a strictly smaller distance (the face is closer). */
  lemma CalculateDistanceDecreasing(h1: int, h2: int)
    requires 0 < h1 < h2
    ensures 0.0 < CalculateDistance(h2) < CalculateDistance(h1)
  {
    var x1, x2 := h1 as real, h2 as real;
    var k := DistanceFactor as real;
    assert CalculateDistance(h1) == k / x1;
    assert CalculateDistance(h2) == k / x2;
    assert k / x1 - k / x2 == k * (x2 - x1) / (x1 * x2);
    assert x1 * x2 > 0.0;
    assert k * (x2 - x1) > 0.0;
  }

  /** A face 200 pixels tall is estimated at 20 cm. */
  lemma TwoHundredPixelsIsTwentyCentimetres()
    ensures CalculateDistance(200) == 20.0
  {
  }

  /** What the face detector delivers for one frame: the bounding-box heights of
      the detected faces, in detection order, or a failure. */
  datatype DetectionOutcome = Faces(heights: seq<int>) | Failure

  /** The value given to the distance callback once detection of a frame finished. */
  function ReportedDistance(outcome: DetectionOutcome): (d: real)
    ensures d == NoDistance || d > 0.0
    ensures d > 0.0 <==> outcome.Faces? && |outcome.heights| > 0 && outcome.heights[0] > 0
    ensures outcome.Faces? && |outcome.heights| > 0 ==> d == CalculateDistance(outcome.heights[0])
  {
    match outcome
    case Faces(heights) => if |heights| > 0 then CalculateDistance(heights[0]) else NoDistance
    case Failure => NoDistance
  }

  /** Only the first detected face matters: the faces after it never change the report. */
  lemma LaterFacesIgnored(first: int, rest1: seq<int>, rest2: seq<int>)
    ensures ReportedDistance(Faces([first] + rest1)) == ReportedDistance(Faces([first] + rest2))
    ensures ReportedDistance(Faces([first] + rest1)) == CalculateDistance(first)
  {
  }

  /** No face and a detector failure are reported alike, as the sentinel. */
  lemma NoFaceOrFailureIsSentinel(outcome: DetectionOutcome)
    requires outcome == Faces([]) || outcome == Failure
    ensures ReportedDistance(outcome) == NoDistance
  {
  }

  /** The sequence of values the callback receives while one frame is analysed:
      one value for a frame that carries an image, none for a frame without one. */
  function Deliveries(hasImage: bool, outcome: DetectionOutcome): (r: seq<real>)
    ensures |r| == if hasImage then 1 else 0
    ensures hasImage ==> r[0] == ReportedDistance(outcome)
    ensures forall i :: 0 <= i < |r| ==> r[i] == NoDistance || r[i] > 0.0
  {
    if hasImage then [ReportedDistance(outcome)] else []
  }

  /** A camera frame handed to the analyzer; it has to be closed so that the camera
      can deliver the next one. */
  class Frame {
    const hasImage: bool
    var closeCount: nat

    constructor (hasImage: bool)
      ensures this.hasImage == hasImage && closeCount == 0
    {
      this.hasImage := hasImage;
      closeCount := 0;
    }

    method Close()
      modifies this
      ensures closeCount == old(closeCount) + 1
    {
      closeCount := closeCount + 1;
    }
  }

  /** The distance callback given to startFaceDetection, recorded as the list of all
      values it has received. */
  class DistanceSink {
    var received: seq<real>

    constructor ()
      ensures received == []
    {
      received := [];
    }

    method Deliver(d: real)
      modifies this
      ensures received == old(received) + [d]
    {
      received := received + [d];
    }
  }

  /** The analyzer installed on the image-analysis use case. */
  class FaceAnalyzer {
    const onDistanceResult: DistanceSink

    constructor (onDistanceResult: DistanceSink)
      ensures this.onDistanceResult == onDistanceResult
    {
      this.onDistanceResult := onDistanceResult;
    }

    /** Analyses one frame; `outcome` is what the detector returns for it (it is not
        consulted when the frame has no image, because the detector is not called).
        The frame is closed exactly once on every path. */
    method Analyze(frame: Frame, outcome: DetectionOutcome)
      modifies frame, onDistanceResult
      ensures frame.closeCount == old(frame.closeCount) + 1
      ensures onDistanceResult.received
              == old(onDistanceResult.received) + Deliveries(frame.hasImage, outcome)
    {
      if frame.hasImage {
        match outcome {
          case Faces(heights) =>
            if |heights| > 0 {
              var distance := CalculateDistance(heights[0]);
              onDistanceResult.Deliver(distance);
            } else {
              onDistanceResult.Deliver(NoDistance);
            }
          case Failure =>
            onDistanceResult.Deliver(NoDistance);
        }
        frame.Close();
      } else {
        frame.Close();
      }
    }
  }

  /** One image-analysis use case bound to the camera, identified by the analyzer
      that was installed on it. */
  datatype UseCase = ImageAnalysis(analyzer: nat)

  /** Whether bindToLifecycle returns or throws. */
  datatype BindOutcome = BindSucceeds | BindThrows

  /** The abstract state of the camera provider: whether a provider was ever
      obtained, and the use cases currently bound to it. */
  datatype CameraState = CameraState(providerObtained: bool, bound: seq<UseCase>)

  const Initial: CameraState := CameraState(false, [])

  /** At most one analysis use case is bound, and nothing is bound without a provider. */
  ghost predicate BindInvariant(s: CameraState)
  {
    |s.bound| <= 1 && (!s.providerObtained ==> s.bound == [])
  }

  /** The provider-ready listener of startFaceDetection: obtain the provider, unbind
      everything, then bind a new use case; a throwing bind is swallowed. */
  function StartStep(s: CameraState, analyzer: nat, outcome: BindOutcome): (r: CameraState)
    ensures r.providerObtained
    ensures r.bound == (if outcome == BindSucceeds then [ImageAnalysis(analyzer)] else [])
  {
    var unbound := s.(providerObtained := true, bound := []);
    match outcome
    case BindSucceeds => unbound.(bound := unbound.bound + [ImageAnalysis(analyzer)])
    case BindThrows => unbound
  }

  /** stopFaceDetection: unbind everything if a provider has been obtained. */
  function StopStep(s: CameraState): (r: CameraState)
    requires BindInvariant(s)
    ensures r.bound == [] && r.providerObtained == s.providerObtained
  {
    if s.providerObtained then s.(bound := []) else s
  }

  /** Stopping twice is the same as stopping once; stopping before any start is a no-op. */
  lemma StopIdempotent(s: CameraState)
    requires BindInvariant(s)
    ensures BindInvariant(StopStep(s)) && StopStep(StopStep(s)) == StopStep(s)
    ensures StopStep(Initial) == Initial
  {
  }

  datatype CameraOp = Start(analyzer: nat, outcome: BindOutcome) | Stop

  function Step(s: CameraState, op: CameraOp): (r: CameraState)
    requires BindInvariant(s)
    ensures BindInvariant(r)
  {
    match op
    case Start(analyzer, outcome) => StartStep(s, analyzer, outcome)
    case Stop => StopStep(s)
  }

  /** The state after the listener runs and stop calls happen in the order of `ops`. */
  function Run(s: CameraState, ops: seq<CameraOp>): CameraState
    requires BindInvariant(s)
    decreases |ops|
  {
    if ops == [] then s else Run(Step(s, ops[0]), ops[1..])
  }

  /** Over every sequence of starts and stops, at most one use case is ever bound. */
  lemma {:induction false} RunKeepsBindInvariant(s: CameraState, ops: seq<CameraOp>)
    requires BindInvariant(s)
    ensures BindInvariant(Run(s, ops))
    decreases |ops|
  {
    if ops != [] {
      RunKeepsBindInvariant(Step(s, ops[0]), ops[1..]);
    }
  }

  /** Running `ops` and then `op` takes one more step from the state `ops` reached. */
  lemma {:induction false} RunSnoc(s: CameraState, ops: seq<CameraOp>, op: CameraOp)
    requires BindInvariant(s)
    ensures BindInvariant(Run(s, ops))
    ensures Run(s, ops + [op]) == Step(Run(s, ops), op)
    decreases |ops|
  {
    RunKeepsBindInvariant(s, ops);
    if ops == [] {
      assert ops + [op] == [op];
      assert [op][1..] == [];
    } else {
      assert (ops + [op])[0] == ops[0];
      assert (ops + [op])[1..] == ops[1..] + [op];
      RunSnoc(Step(s, ops[0]), ops[1..], op);
    }
  }

  /** Whatever happened before, the last operation alone decides what is bound:
      after a stop nothing is, after a start only that start's use case (if its
      bind did not throw). */
  lemma LastOperationDecides(s: CameraState, ops: seq<CameraOp>, op: CameraOp)
    requires BindInvariant(s)
    ensures op == Stop ==> Run(s, ops + [op]).bound == []
    ensures op.Start? ==> Run(s, ops + [op]).providerObtained
    ensures op.Start? && op.outcome == BindSucceeds
            ==> Run(s, ops + [op]).bound == [ImageAnalysis(op.analyzer)]
    ensures op.Start? && op.outcome == BindThrows ==> Run(s, ops + [op]).bound == []
  {
    RunSnoc(s, ops, op);
  }

  /** The camera manager: the nullable `cameraProvider` and the provider's bound use cases. */
  class CameraManager {
    var providerObtained: bool
    var bound: seq<UseCase>

    function State(): CameraState
      reads this
    {
      CameraState(providerObtained, bound)
    }

    ghost predicate Valid()
      reads this
    {
      BindInvariant(State())
    }

    constructor ()
      ensures Valid() && State() == Initial
    {
      providerObtained := false;
      bound := [];
    }

    /** The listener that runs once the provider future completes, for the analyzer
        `analyzer` wrapping the caller's distance callback; `outcome` is whether
        bindToLifecycle returns or throws. */
    method StartFaceDetection(analyzer: nat, outcome: BindOutcome)
      requires Valid()
      modifies this
      ensures Valid() && State() == StartStep(old(State()), analyzer, outcome)
      ensures providerObtained
      ensures bound == if outcome == BindSucceeds then [ImageAnalysis(analyzer)] else []
    {
      providerObtained := true;
      // unbindAll
      bound := [];
      // bindToLifecycle, whose exception is swallowed
      if outcome == BindSucceeds {
        bound := bound + [ImageAnalysis(analyzer)];
      }
    }

    method StopFaceDetection()
      requires Valid()
      modifies this
      ensures Valid() && State() == StopStep(old(State()))
      ensures bound == [] && providerObtained == old(providerObtained)
    {
      if providerObtained {
        bound := [];
      }
    }
  }
}
