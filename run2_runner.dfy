/**
 The second evaluator variant: five buttons, screen pixels scaled into
 [-1, 1], the previous frame's presses fed back as five extra inputs, Left and
 Right never sent together, and a fitness that adds a bonus per frame with
 Right held and a velocity bonus to the maximum x position.
 */
module Run2Runner {
  import opened Geometry
  import opened Controls
  import opened Progress

  /** The buttons this variant controls, in weight-matrix column order. */
  const ActiveButtons: seq<Button> := [B, Y, Left, Right, A]

  /** The line the feedback inputs sit on, below the screen. */
  const FeedbackY: real := -1.2

  /** The weight-matrix columns of Left and Right. */
  const LeftIndex: nat := 2
  const RightIndex: nat := 3

  /**
   The substrate layout: one input per pixel followed by one feedback input
   per active button, and one output per active button.
   */
  class Substrate {
    const width: nat
    const height: nat
    const activeButtons: seq<Button>
    const inputCoords: seq<Coord>
    const outputCoords: seq<Coord>
    const feedbackCoords: seq<Coord>
    const allInputCoords: seq<Coord>

    ghost predicate Valid()
    {
      && activeButtons == ActiveButtons
      && inputCoords == MeshGrid(width, height)
      && |outputCoords| == |ActiveButtons| && |feedbackCoords| == |ActiveButtons|
      && (forall i :: 0 <= i < |ActiveButtons| ==>
            outputCoords[i] == Coord(EvenlySpaced(|ActiveButtons|, i), 1.0))
      && (forall i :: 0 <= i < |ActiveButtons| ==>
            feedbackCoords[i] == Coord(EvenlySpaced(|ActiveButtons|, i), FeedbackY))
      && allInputCoords == inputCoords + feedbackCoords
    }

    constructor (width: nat := 128, height: nat := 112)
      ensures Valid() && this.width == width && this.height == height
    {
      this.width := width;
      this.height := height;
      var grid := MeshGrid(width, height);
      inputCoords := grid;
      activeButtons := ActiveButtons;
      var outputs := ButtonRow(|ActiveButtons|, 1.0);
      outputCoords := outputs;
      var feedback := ButtonRow(|ActiveButtons|, FeedbackY);
      feedbackCoords := feedback;
      allInputCoords := grid + feedback;
    }

    /**
     The phenotype: a (width*height + 5) x 5 matrix whose cell [j, i] is the
     CPPN at (input j, output i), feedback inputs included; two builds from the
     same CPPN agree cell for cell.
     */
    method BuildPhenotype(cppn: Cppn) returns (weights: array2<real>)
      requires Valid()
      ensures fresh(weights)
      ensures weights.Length0 == width * height + |ActiveButtons| && weights.Length1 == |ActiveButtons|
      ensures forall j, i :: 0 <= j < weights.Length0 && 0 <= i < weights.Length1 ==>
                weights[j, i] == Query(cppn, allInputCoords[j], outputCoords[i])
    {
      assert |MeshGrid(width, height)| == height * width;
      weights := Compile(allInputCoords, outputCoords, cppn);
    }
  }

  /** The columns are where active_buttons.index finds Left and Right. */
  lemma ConflictColumns()
    ensures IndexOf(ActiveButtons, Left) == LeftIndex && IndexOf(ActiveButtons, Right) == RightIndex
  {
    assert ActiveButtons[2] == Left && ActiveButtons[3] == Right;
  }

  /** Five outputs on the line y = 1, from x = -1 to x = 1, left to right: Left sits left of Right. */
  lemma OutputLayout(s: Substrate)
    requires s.Valid()
    ensures |s.outputCoords| == 5
    ensures s.outputCoords[0] == Coord(-1.0, 1.0) && s.outputCoords[4] == Coord(1.0, 1.0)
    ensures forall i, j :: 0 <= i < j < 5 ==> s.outputCoords[i].x < s.outputCoords[j].x
  {
    forall i, j | 0 <= i < j < 5
      ensures s.outputCoords[i].x < s.outputCoords[j].x
    {
      EvenlySpacedIncreasing(5, i, j);
    }
  }

  /**
   The feedback inputs mirror the outputs: same count, same x positions, on
   the line y = -1.2 below every screen input, and they come last among the inputs.
   */
  lemma FeedbackLayout(s: Substrate)
    requires s.Valid()
    ensures |s.feedbackCoords| == |s.outputCoords|
    ensures forall i :: 0 <= i < |s.feedbackCoords| ==>
              s.feedbackCoords[i] == Coord(s.outputCoords[i].x, -1.2)
    ensures forall i, j :: 0 <= i < |s.feedbackCoords| && 0 <= j < |s.inputCoords| ==>
              s.feedbackCoords[i].y < s.inputCoords[j].y
    ensures |s.allInputCoords| == |s.inputCoords| + |s.feedbackCoords|
    ensures forall i :: 0 <= i < |s.feedbackCoords| ==>
              s.allInputCoords[|s.inputCoords| + i] == s.feedbackCoords[i]
  {
    MeshGridBounds(s.width, s.height);
  }

  /** Pixel (r, c) is input r*width + c, at (x_range[c], y_range[r]); the five feedback inputs follow the pixels. */
  lemma InputLayout(s: Substrate, r: nat, c: nat)
    requires s.Valid() && r < s.height && c < s.width
    ensures |s.allInputCoords| == s.width * s.height + 5
    ensures s.allInputCoords[r * s.width + c] == Coord(Linspace(s.width, c), Linspace(s.height, r))
  {
    MeshGridAt(s.width, s.height, r, c);
    MulStrict(r, s.height, s.width, c);
    var j := r * s.width + c;
    assert j < |s.inputCoords|;
    assert s.allInputCoords[j] == s.inputCoords[j];
  }

  /** Screen inputs of this variant: each 8-bit pixel divided by 127.5, minus 1, into [-1, 1]. */
  function ScreenInputs(pixels: seq<Pixel>): (v: seq<real>)
    ensures |v| == |pixels|
  {
    seq(|pixels|, i requires 0 <= i < |pixels| => pixels[i] as real / 127.5 - 1.0)
  }

  /** Every screen input lies in [-1, 1], and the pixel is recovered as (v + 1) * 127.5. */
  lemma ScreenInputsRange(pixels: seq<Pixel>)
    ensures forall i :: 0 <= i < |pixels| ==>
              -1.0 <= ScreenInputs(pixels)[i] <= 1.0 && (ScreenInputs(pixels)[i] + 1.0) * 127.5 == pixels[i] as real
  {
  }

  /** The press vector as floats: 1.0 for a pressed button, 0.0 otherwise. */
  function Indicator(pressed: seq<bool>): (v: seq<real>)
    ensures |v| == |pressed|
  {
    seq(|pressed|, i requires 0 <= i < |pressed| => if pressed[i] then 1.0 else 0.0)
  }

  /** The previous press vector mapped to feedback inputs, 2b - 1: pressed is 1, released is -1. */
  function FeedbackInputs(prev: seq<real>): (f: seq<real>)
    ensures |f| == |prev|
  {
    seq(|prev|, i requires 0 <= i < |prev| => prev[i] * 2.0 - 1.0)
  }

  /** The network input of one frame: the screen followed by the feedback. */
  function Inputs(pixels: seq<Pixel>, prev: seq<real>): (v: seq<real>)
    ensures |v| == |pixels| + |prev|
  {
    ScreenInputs(pixels) + FeedbackInputs(prev)
  }

  /** The weight matrix has one row per pixel and feedback input of every observed screen and one column per button. */
  predicate Fits(weights: array2<real>, trace: seq<Observation>)
  {
    && weights.Length1 == |ActiveButtons|
    && forall k :: 1 <= k < |trace| ==> |trace[k].pixels| + |ActiveButtons| == weights.Length0
  }

  /** The squashed network outputs for one observed screen under a given feedback vector. */
  function Squashed(weights: array2<real>, sig: real -> real, o: Observation, prev: seq<real>): (out: seq<real>)
    requires |o.pixels| + |prev| == weights.Length0
    reads weights
    ensures |out| == weights.Length1
  {
    Squash(sig, Outputs(Inputs(o.pixels, prev), weights))
  }

  /** Left/Right conflict resolution of one frame's press vector, by the magnitudes of the squashed outputs. */
  function Resolve(pressed: seq<bool>, outputs: seq<real>): (sent: seq<bool>)
    requires |pressed| == |ActiveButtons| && |outputs| == |ActiveButtons|
    ensures |sent| == |pressed|
  {
    if pressed[LeftIndex] && pressed[RightIndex] then
      if Abs(outputs[LeftIndex]) > Abs(outputs[RightIndex]) then pressed[RightIndex := false]
      else pressed[LeftIndex := false]
    else pressed
  }

  /**
   When Left and Right are both pressed exactly one survives: Left when its
   output has the strictly larger magnitude, Right otherwise, ties included.
   Every other button, and every frame without a conflict, passes through
   unchanged, and nothing is sent that was not pressed.
   */
  lemma ResolveFacts(pressed: seq<bool>, outputs: seq<real>)
    requires |pressed| == |ActiveButtons| && |outputs| == |ActiveButtons|
    ensures var sent := Resolve(pressed, outputs);
            && (forall i :: 0 <= i < |pressed| && i != LeftIndex && i != RightIndex ==> sent[i] == pressed[i])
            && !(sent[LeftIndex] && sent[RightIndex])
            && (forall i :: 0 <= i < |pressed| && sent[i] ==> pressed[i])
            && (!(pressed[LeftIndex] && pressed[RightIndex]) ==> sent == pressed)
            && (pressed[LeftIndex] && pressed[RightIndex] ==>
                  && sent[LeftIndex] != sent[RightIndex]
                  && (sent[LeftIndex] <==> Abs(outputs[LeftIndex]) > Abs(outputs[RightIndex])))
  {
  }

  function Zeros(n: nat): (v: seq<real>)
    ensures |v| == n && forall i :: 0 <= i < n ==> v[i] == 0.0
  {
    seq(n, _ => 0.0)
  }

  /** Whether a sent vector holds Right. */
  predicate HoldsRight(buttons: seq<bool>)
  {
    RightIndex < |buttons| && buttons[RightIndex]
  }

  /**
   What the frame loop carries from one frame to the next: the feedback
   vector for the next read, the button vectors sent so far and the number of
   frames whose sent vector held Right.
   */
  datatype Play = Play(feedback: seq<real>, sent: seq<seq<bool>>, rightPresses: nat)

  /**
   One frame of the controller on read o: the press vector decided from the
   squashed outputs becomes the next feedback before conflict resolution, and
   the resolved vector is sent and counted when it holds Right.
   */
  function Frame(weights: array2<real>, sig: real -> real, o: Observation, p: Play): (q: Play)
    requires weights.Length1 == |ActiveButtons| && |p.feedback| == |ActiveButtons|
    requires |o.pixels| + |p.feedback| == weights.Length0
    reads weights
    ensures |q.feedback| == |ActiveButtons| && |q.sent| == |p.sent| + 1
  {
    var out := Squashed(weights, sig, o, p.feedback);
    var buttons := Resolve(Threshold(out), out);
    Play(Indicator(Threshold(out)), p.sent + [buttons], p.rightPresses + if HoldsRight(buttons) then 1 else 0)
  }

  lemma FrameOf(weights: array2<real>, sig: real -> real, o: Observation, p: Play,
                newPrev: seq<real>, buttons: seq<bool>)
    requires weights.Length1 == |ActiveButtons| && |p.feedback| == |ActiveButtons|
    requires |o.pixels| + |p.feedback| == weights.Length0
    requires var out := Squashed(weights, sig, o, p.feedback);
             newPrev == Indicator(Threshold(out)) && buttons == Resolve(Threshold(out), out)
    ensures Frame(weights, sig, o, p) ==
            Play(newPrev, p.sent + [buttons], p.rightPresses + if HoldsRight(buttons) then 1 else 0)
  {
  }

  /** The loop's carried state after the first n frames, starting from an all-zero feedback vector. */
  function PlayTo(weights: array2<real>, sig: real -> real, trace: seq<Observation>, n: nat): (p: Play)
    requires Fits(weights, trace) && n < |trace|
    reads weights
    ensures |p.feedback| == |ActiveButtons| && |p.sent| == n
  {
    if n == 0 then Play(Zeros(|ActiveButtons|), [], 0)
    else Frame(weights, sig, trace[n], PlayTo(weights, sig, trace, n - 1))
  }

  /** The squashed outputs of frame k, computed from read k + 1 and the feedback in force. */
  function FrameOutputs(weights: array2<real>, sig: real -> real, trace: seq<Observation>, k: nat): (out: seq<real>)
    requires Fits(weights, trace) && k + 1 < |trace|
    reads weights
    ensures |out| == |ActiveButtons|
  {
    Squashed(weights, sig, trace[k + 1], PlayTo(weights, sig, trace, k).feedback)
  }

  /** The next frame of the specification from the state after n frames. */
  lemma PlayStep(weights: array2<real>, sig: real -> real, trace: seq<Observation>, n: nat, p: Play)
    requires Fits(weights, trace) && n + 1 < |trace| && p == PlayTo(weights, sig, trace, n)
    ensures PlayTo(weights, sig, trace, n + 1) == Frame(weights, sig, trace[n + 1], p)
  {
  }

  /** The last frame of the first n: what it sent and the feedback it left. */
  lemma LastFrame(weights: array2<real>, sig: real -> real, trace: seq<Observation>, n: nat)
    requires Fits(weights, trace) && 0 < n < |trace|
    ensures var out := FrameOutputs(weights, sig, trace, n - 1);
            && PlayTo(weights, sig, trace, n).sent[n - 1] == Resolve(Threshold(out), out)
            && PlayTo(weights, sig, trace, n).feedback == Indicator(Threshold(out))
  {
  }

  /** Later frames only append: the vector sent in frame k stays in place. */
  lemma {:induction false} SentPrefix(weights: array2<real>, sig: real -> real, trace: seq<Observation>, n: nat, k: nat)
    requires Fits(weights, trace) && k < n < |trace|
    ensures PlayTo(weights, sig, trace, n).sent[k] == PlayTo(weights, sig, trace, k + 1).sent[k]
  {
    if k < n - 1 {
      SentPrefix(weights, sig, trace, n - 1, k);
      assert PlayTo(weights, sig, trace, n).sent[..n - 1] == PlayTo(weights, sig, trace, n - 1).sent;
    }
  }

  /**
   The vector sent in frame k is the resolved decision of that frame, for
   every later state of the loop, and the feedback after frame k is its press
   vector before resolution.
   */
  lemma SentAt(weights: array2<real>, sig: real -> real, trace: seq<Observation>, n: nat, k: nat)
    requires Fits(weights, trace) && k < n < |trace|
    ensures var out := FrameOutputs(weights, sig, trace, k);
            && |PlayTo(weights, sig, trace, n).sent[k]| == |ActiveButtons|
            && PlayTo(weights, sig, trace, n).sent[k] == Resolve(Threshold(out), out)
            && PlayTo(weights, sig, trace, k + 1).feedback == Indicator(Threshold(out))
  {
    SentPrefix(weights, sig, trace, n, k);
    LastFrame(weights, sig, trace, k + 1);
  }

  /** The number of frames whose sent vector holds Right, counted afresh. */
  function RightPresses(sent: seq<seq<bool>>): (count: nat)
    ensures count <= |sent|
  {
    if sent == [] then 0
    else RightPresses(sent[..|sent| - 1]) + (if HoldsRight(sent[|sent| - 1]) then 1 else 0)
  }

  /** The loop's running Right count is the number of sent vectors holding Right. */
  lemma {:induction false} RightPressesCounted(weights: array2<real>, sig: real -> real, trace: seq<Observation>, n: nat)
    requires Fits(weights, trace) && n < |trace|
    ensures PlayTo(weights, sig, trace, n).rightPresses == RightPresses(PlayTo(weights, sig, trace, n).sent)
  {
    if n > 0 {
      RightPressesCounted(weights, sig, trace, n - 1);
      var sent := PlayTo(weights, sig, trace, n).sent;
      assert sent[..n - 1] == PlayTo(weights, sig, trace, n - 1).sent;
    }
  }

  datatype Evaluation =
    | ConnectFailed
    | NoInitialState
    | Scored(initialX: int, maxDistance: int, stagnation: nat, exit: Exit,
             sent: seq<seq<bool>>, rightPresses: nat)

  /**
   One genome's evaluation. `connected` says whether the bridge already had a
   socket, `connects` whether connecting succeeds; trace[0] is the state read
   after the reset.
   */
  function Evaluate(weights: array2<real>, sig: real -> real, connected: bool, connects: bool,
                    trace: seq<Observation>): Evaluation
    requires Fits(weights, trace)
    reads weights
  {
    if !connected && !connects then ConnectFailed
    else if trace == [] then NoInitialState
    else
      var x0 := trace[0].marioX;
      var exit := LoopExit(x0, Xs(trace), 0);
      var t := TrackAll(x0, Xs(trace), Reads(exit));
      var p := PlayTo(weights, sig, trace, Reads(exit));
      Scored(x0, t.maxDistance, t.stagnation, exit, p.sent, p.rightPresses)
  }

  lemma EvaluateScored(weights: array2<real>, sig: real -> real, connected: bool, connects: bool,
                       trace: seq<Observation>)
    requires Fits(weights, trace) && (connected || connects) && trace != []
    ensures var x0 := trace[0].marioX;
            var exit := LoopExit(x0, Xs(trace), 0);
            var t := TrackAll(x0, Xs(trace), Reads(exit));
            var p := PlayTo(weights, sig, trace, Reads(exit));
            Evaluate(weights, sig, connected, connects, trace) ==
              Scored(x0, t.maxDistance, t.stagnation, exit, p.sent, p.rightPresses)
  {
  }

  /**
   The velocity-bonus fitness: the maximum distance, plus one per frame with
   Right sent, plus ten times the average speed over the frames counted; the
   speed is 0 when no frame was counted.
   */
  function FitnessFormula(maxDistance: int, initialX: int, rightPresses: nat, frame: nat): real
  {
    var avgSpeed := if frame > 0 then (maxDistance - initialX) as real / frame as real else 0.0;
    maxDistance as real + 1.0 * rightPresses as real + avgSpeed * 10.0
  }

  /** The fitness of an evaluation, 0 when it could not start. */
  function Fitness(e: Evaluation): real
  {
    if e.Scored? then FitnessFormula(e.maxDistance, e.initialX, e.rightPresses, e.exit.frame) else 0.0
  }

  /** With the maximum at least the start, the fitness is at least the maximum plus the Right bonus. */
  lemma FitnessAtLeastDistance(maxDistance: int, initialX: int, rightPresses: nat, frame: nat)
    requires initialX <= maxDistance
    ensures FitnessFormula(maxDistance, initialX, rightPresses, frame) >= maxDistance as real + rightPresses as real
    ensures frame == 0 ==> FitnessFormula(maxDistance, initialX, rightPresses, frame) == maxDistance as real + rightPresses as real
  {
    if frame > 0 {
      var d := (maxDistance - initialX) as real;
      var f := frame as real;
      assert d / f >= 0.0 by {
        assert d >= 0.0 && f > 0.0;
      }
    }
  }

  /** With the start, the Right count and the frame count fixed, the fitness grows with the maximum distance. */
  lemma FitnessMonotone(m1: int, m2: int, initialX: int, rightPresses: nat, frame: nat)
    requires m1 <= m2
    ensures FitnessFormula(m1, initialX, rightPresses, frame) <= FitnessFormula(m2, initialX, rightPresses, frame)
  {
    if frame > 0 {
      var f := frame as real;
      var d1 := (m1 - initialX) as real;
      var d2 := (m2 - initialX) as real;
      assert d1 / f <= d2 / f by {
        assert d2 / f - d1 / f == (d2 - d1) / f;
        assert (d2 - d1) / f >= 0.0;
      }
    }
  }

  /** An evaluation fails exactly when the bridge cannot connect or the first read returns no state, and then scores 0. */
  lemma EvaluationFailures(weights: array2<real>, sig: real -> real, connected: bool, connects: bool,
                           trace: seq<Observation>)
    requires Fits(weights, trace)
    ensures var e := Evaluate(weights, sig, connected, connects, trace);
            && (e.ConnectFailed? <==> !connected && !connects)
            && (e.NoInitialState? <==> (connected || connects) && trace == [])
            && (e.Scored? <==> (connected || connects) && trace != [])
            && (!e.Scored? ==> Fitness(e) == 0.0)
  {
  }

  /**
   The bookkeeping of a scored evaluation: the start is read from the trace,
   the maximum bounds every position read, at most 600 frames ran, one action
   was sent per read, the running Right count is the number of sent vectors
   holding Right and so at most the frame counter plus one, and a stagnation
   exit comes no earlier than frame 60.
   */
  lemma EvaluationProgress(weights: array2<real>, sig: real -> real, connected: bool, connects: bool,
                           trace: seq<Observation>)
    requires Fits(weights, trace)
    ensures var e := Evaluate(weights, sig, connected, connects, trace);
            e.Scored? ==>
              && e.initialX == trace[0].marioX
              && e.initialX <= e.maxDistance
              && (forall k :: 1 <= k <= Reads(e.exit) ==> trace[k].marioX <= e.maxDistance)
              && e.exit.frame <= MaxFrames
              && |e.sent| == Reads(e.exit) <= e.exit.frame + 1
              && e.rightPresses == RightPresses(e.sent)
              && e.rightPresses <= e.exit.frame + 1
              && (e.exit.reason == Stagnated ==> e.exit.frame >= StagnationLimit)
              && (e.exit.frame == 0 ==> e.sent == [] && e.maxDistance == e.initialX)
  {
    var e := Evaluate(weights, sig, connected, connects, trace);
    if e.Scored? {
      var x0 := trace[0].marioX;
      var xs := Xs(trace);
      var n := Reads(e.exit);
      RunningMaximum(x0, xs, n);
      StagnationExit(x0, xs);
      RightPressesCounted(weights, sig, trace, n);
      forall k | 1 <= k <= n
        ensures trace[k].marioX <= e.maxDistance
      {
        assert xs[k - 1] == trace[k].marioX;
      }
    }
  }

  /**
   The fitness of a scored evaluation is at least the maximum distance plus
   the Right count, hence at least the start, and exactly the start when the
   loop counted no frame.
   */
  lemma EvaluationFitness(weights: array2<real>, sig: real -> real, connected: bool, connects: bool,
                          trace: seq<Observation>)
    requires Fits(weights, trace)
    ensures var e := Evaluate(weights, sig, connected, connects, trace);
            e.Scored? ==>
              && Fitness(e) >= e.maxDistance as real + e.rightPresses as real >= e.initialX as real
              && (e.exit.frame == 0 ==> Fitness(e) == e.initialX as real)
  {
    var e := Evaluate(weights, sig, connected, connects, trace);
    if e.Scored? {
      EvaluationProgress(weights, sig, connected, connects, trace);
      FitnessAtLeastDistance(e.maxDistance, e.initialX, e.rightPresses, e.exit.frame);
    }
  }

  /** No frame ever sends Left and Right together. */
  lemma NoConflictSent(weights: array2<real>, sig: real -> real, connected: bool, connects: bool,
                       trace: seq<Observation>, k: nat)
    requires Fits(weights, trace)
    requires Evaluate(weights, sig, connected, connects, trace).Scored?
    requires k < |Evaluate(weights, sig, connected, connects, trace).sent|
    ensures var s := Evaluate(weights, sig, connected, connects, trace).sent[k];
            |s| == |ActiveButtons| && !(s[LeftIndex] && s[RightIndex])
  {
    var e := Evaluate(weights, sig, connected, connects, trace);
    SentAt(weights, sig, trace, Reads(e.exit), k);
  }

  /**
   The feedback of frame k + 1 is the threshold decision of frame k before
   conflict resolution: each button fed back as 1 when its output exceeded 0.5
   and as -1 otherwise, while the vector sent in frame k agrees with it on
   every button but Left and Right, on those too when there was no conflict,
   and when there was, still feeds back both as pressed although only one was sent.
   */
  lemma FeedbackBeforeResolution(weights: array2<real>, sig: real -> real, trace: seq<Observation>, k: nat)
    requires Fits(weights, trace) && k + 1 < |trace|
    ensures var out := FrameOutputs(weights, sig, trace, k);
            var fed := FeedbackInputs(PlayTo(weights, sig, trace, k + 1).feedback);
            var sent := PlayTo(weights, sig, trace, k + 1).sent[k];
            && (forall i :: 0 <= i < |ActiveButtons| ==> (fed[i] == 1.0 <==> out[i] > 0.5))
            && (forall i :: 0 <= i < |ActiveButtons| ==> (fed[i] == -1.0 <==> out[i] <= 0.5))
            && (forall i :: 0 <= i < |ActiveButtons| && i != LeftIndex && i != RightIndex ==>
                  (sent[i] <==> fed[i] == 1.0))
            && (!(out[LeftIndex] > 0.5 && out[RightIndex] > 0.5) ==>
                  forall i :: 0 <= i < |ActiveButtons| ==> (sent[i] <==> fed[i] == 1.0))
            && (out[LeftIndex] > 0.5 && out[RightIndex] > 0.5 ==>
                  fed[LeftIndex] == 1.0 && fed[RightIndex] == 1.0 && sent[LeftIndex] != sent[RightIndex])
  {
    var out := FrameOutputs(weights, sig, trace, k);
    var prev := PlayTo(weights, sig, trace, k + 1).feedback;
    assert prev == Indicator(Threshold(out));
    SentAt(weights, sig, trace, k + 1, k);
  }

  /**
   Under a logistic squashing, a button is decided as pressed exactly when its
   raw activation is positive, and in a conflict Right is dropped exactly when
   Left's raw activation is the larger.
   */
  lemma DecisionsByRawActivation(weights: array2<real>, sig: real -> real, trace: seq<Observation>, k: nat)
    requires Fits(weights, trace) && LogisticLike(sig) && k + 1 < |trace|
    ensures var raw := Outputs(Inputs(trace[k + 1].pixels, PlayTo(weights, sig, trace, k).feedback), weights);
            var out := FrameOutputs(weights, sig, trace, k);
            && (forall i :: 0 <= i < |ActiveButtons| ==> (out[i] > 0.5 <==> raw[i] > 0.0))
            && (out[LeftIndex] > 0.5 && out[RightIndex] > 0.5 ==>
                  (PlayTo(weights, sig, trace, k + 1).sent[k][RightIndex] <==> raw[LeftIndex] <= raw[RightIndex]))
  {
    var raw := Outputs(Inputs(trace[k + 1].pixels, PlayTo(weights, sig, trace, k).feedback), weights);
    PressedIffPositive(sig, raw);
    MagnitudeOrderIsRawOrder(sig, raw[LeftIndex], raw[RightIndex]);
    SentAt(weights, sig, trace, k + 1, k);
  }

  /**
   The scripted run of a mocked emulator: the start reads x = 120, the next
   ten reads advance one pixel each, then the read fails. The loop stops on
   that failure at frame 10 with maximum 130, and the fitness is 130 plus the
   Right count plus a velocity bonus of 10.
   */
  lemma MockServerScenario(weights: array2<real>, sig: real -> real, connected: bool, connects: bool,
                           trace: seq<Observation>)
    requires Fits(weights, trace) && (connected || connects)
    requires |trace| == 11 && forall k :: 0 <= k < 11 ==> trace[k].marioX == 120 + k
    ensures var e := Evaluate(weights, sig, connected, connects, trace);
            && e.Scored?
            && e.maxDistance == 130
            && e.exit == Exit(10, ReadFailed)
            && Fitness(e) == 140.0 + e.rightPresses as real
  {
    var xs := Xs(trace);
    assert Advancing(120, xs) by {
      forall j | 0 <= j < |xs|
        ensures xs[j] > (if j == 0 then 120 else xs[j - 1])
      {
        assert xs[j] == 121 + j;
      }
    }
    AdvancingRunsToFailedRead(120, xs);
    assert xs[9] == 130;
  }

  /**
   The per-button loop: each button is pressed when its squashed output
   exceeds 0.5, and the press vector for the next frame's feedback records
   the same decisions as 1.0 and 0.0.
   */
  method DecideAndRecord(outputs: seq<real>) returns (pressed: seq<bool>, vector: seq<real>)
    ensures |pressed| == |outputs| && |vector| == |outputs|
    ensures forall i :: 0 <= i < |outputs| ==> (pressed[i] <==> outputs[i] > 0.5)
    ensures forall i :: 0 <= i < |outputs| ==> vector[i] == if pressed[i] then 1.0 else 0.0
  {
    pressed := [];
    vector := [];
    for i := 0 to |outputs|
      invariant |pressed| == i && |vector| == i
      invariant forall k :: 0 <= k < i ==> (pressed[k] <==> outputs[k] > 0.5)
      invariant forall k :: 0 <= k < i ==> vector[k] == if pressed[k] then 1.0 else 0.0
    {
      var isPressed := outputs[i] > 0.5;
      pressed := pressed + [isPressed];
      vector := vector + [if isPressed then 1.0 else 0.0];
    }
  }

  /** One frame of the controller: inputs, forward pass, squashing, thresholding and conflict resolution. */
  method Respond(weights: array2<real>, sig: real -> real, obs: Observation, prev: seq<real>)
    returns (newPrev: seq<real>, buttons: seq<bool>)
    requires weights.Length1 == |ActiveButtons| && |prev| == |ActiveButtons|
    requires |obs.pixels| + |prev| == weights.Length0
    ensures var out := Squashed(weights, sig, obs, prev);
            newPrev == Indicator(Threshold(out)) && buttons == Resolve(Threshold(out), out)
  {
    var screenInputs := ScreenInputs(obs.pixels);
    var feedbackInputs := FeedbackInputs(prev);
    var inputs := screenInputs + feedbackInputs;
    var outputs := Squash(sig, Outputs(inputs, weights));
    buttons, newPrev := DecideAndRecord(outputs);
    assert buttons == Threshold(outputs);
    assert newPrev == Indicator(buttons);
    if buttons[LeftIndex] && buttons[RightIndex] {
      var leftIdx := IndexOf(ActiveButtons, Left);
      var rightIdx := IndexOf(ActiveButtons, Right);
      ConflictColumns();
      if Abs(outputs[leftIdx]) > Abs(outputs[rightIdx]) {
        buttons := buttons[rightIdx := false];
      } else {
        buttons := buttons[leftIdx := false];
      }
    }
  }

  /**
   The controller part of the loop body at frame n: the buttons sent for read
   n + 1, the press vector kept as the next feedback, and the Right count
   updated by the sent vector.
   */
  method ControllerFrame(weights: array2<real>, sig: real -> real, trace: seq<Observation>, n: nat,
                         prev: seq<real>, rightPressCount: nat, ghost sent: seq<seq<bool>>)
    returns (newPrev: seq<real>, buttons: seq<bool>, newCount: nat)
    requires Fits(weights, trace) && n + 1 < |trace|
    requires Play(prev, sent, rightPressCount) == PlayTo(weights, sig, trace, n)
    ensures Play(newPrev, sent + [buttons], newCount) == PlayTo(weights, sig, trace, n + 1)
  {
    var obs := trace[n + 1];
    newPrev, buttons := Respond(weights, sig, obs, prev);
    newCount := rightPressCount;
    if buttons[RightIndex] {
      newCount := newCount + 1;
    }
    PlayStep(weights, sig, trace, n, Play(prev, sent, rightPressCount));
    FrameOf(weights, sig, obs, Play(prev, sent, rightPressCount), newPrev, buttons);
  }

  /** The evaluator; the bridge it owns is replaced by the connection flags and the trace. */
  class NeatoBrain {
    const substrate: Substrate

    constructor ()
      ensures substrate.Valid() && substrate.width == 128 && substrate.height == 112
    {
      substrate := new Substrate();
    }

    /**
     The frame loop from the initial read on: returns the frame counter, the
     maximum distance, the stagnation counter and the Right count where the
     loop stopped; `sent` is the button vectors handed to the emulator.
     */
    method RunFrames(weights: array2<real>, trace: seq<Observation>, sig: real -> real)
      returns (currentFrame: nat, maxDistance: int, stagnationCounter: nat, rightPressCount: nat,
               ghost sent: seq<seq<bool>>)
      requires Fits(weights, trace) && trace != []
      ensures currentFrame == LoopExit(trace[0].marioX, Xs(trace), 0).frame
      ensures Tracker(maxDistance, stagnationCounter) ==
              TrackAll(trace[0].marioX, Xs(trace), Reads(LoopExit(trace[0].marioX, Xs(trace), 0)))
      ensures rightPressCount == PlayTo(weights, sig, trace, Reads(LoopExit(trace[0].marioX, Xs(trace), 0))).rightPresses
      ensures sent == PlayTo(weights, sig, trace, Reads(LoopExit(trace[0].marioX, Xs(trace), 0))).sent
    {
      var initialX := trace[0].marioX;
      currentFrame := 0;
      maxDistance := initialX;
      stagnationCounter := 0;
      rightPressCount := 0;
      sent := [];
      var prevButtonsVector := Zeros(|ActiveButtons|);
      ghost var xs := Xs(trace);
      while currentFrame < MaxFrames
        invariant currentFrame <= MaxFrames && currentFrame < |trace|
        invariant NoExitBefore(initialX, xs, currentFrame)
        invariant Tracker(maxDistance, stagnationCounter) == TrackAll(initialX, xs, currentFrame)
        invariant Play(prevButtonsVector, sent, rightPressCount) == PlayTo(weights, sig, trace, currentFrame)
      {
        if currentFrame + 1 >= |trace| {
          LoopExitFrom(initialX, xs, 0, currentFrame);
          return;
        }
        var buttons;
        prevButtonsVector, buttons, rightPressCount :=
          ControllerFrame(weights, sig, trace, currentFrame, prevButtonsVector, rightPressCount, sent);
        sent := sent + [buttons];
        var currentDistance := trace[currentFrame + 1].marioX;
        assert xs[currentFrame] == currentDistance;
        ProgressStep(initialX, xs, currentFrame, Tracker(maxDistance, stagnationCounter));
        if currentDistance > maxDistance {
          maxDistance := currentDistance;
          stagnationCounter := 0;
        } else {
          stagnationCounter := stagnationCounter + 1;
        }
        if stagnationCounter > StagnationLimit {
          return;
        }
        currentFrame := currentFrame + 1;
      }
      LoopExitFrom(initialX, xs, 0, currentFrame);
    }

    /** Runs one genome and returns its fitness, 0 when the bridge cannot connect or the first read fails. */
    method RunSimulation(weights: array2<real>, connected: bool, connects: bool,
                         trace: seq<Observation>, sig: real -> real)
      returns (fitness: real, ghost sent: seq<seq<bool>>)
      requires Fits(weights, trace)
      ensures fitness == Fitness(Evaluate(weights, sig, connected, connects, trace))
      ensures Evaluate(weights, sig, connected, connects, trace).Scored? ==>
                sent == Evaluate(weights, sig, connected, connects, trace).sent
    {
      sent := [];
      if !connected && !connects {
        return 0.0, sent;
      }
      if trace == [] {
        return 0.0, sent;
      }
      var initialX := trace[0].marioX;
      var currentFrame, maxDistance, stagnationCounter, rightPressCount;
      currentFrame, maxDistance, stagnationCounter, rightPressCount, sent := RunFrames(weights, trace, sig);
      var distanceTraveled := maxDistance - initialX;
      var avgSpeed;
      if currentFrame > 0 {
        avgSpeed := distanceTraveled as real / currentFrame as real;
      } else {
        avgSpeed := 0.0;
      }
      var velocityBonus := avgSpeed * 10.0;
      var rightPressBonus := 1.0 * rightPressCount as real;
      fitness := maxDistance as real + rightPressBonus + velocityBonus;
      EvaluateScored(weights, sig, connected, connects, trace);
    }
  }
}
