/**
 The baseline evaluator: eight buttons, screen pixels scaled into [0, 1], no
 button feedback, no Left/Right conflict resolution, and the maximum x
 position reached as the fitness.
 */
module NeatoBrain {
  import opened Geometry
  import opened Controls
  import opened Progress

  /** The buttons the baseline controls, in weight-matrix column order. */
  const ActiveButtons: seq<Button> := [B, Y, Up, Down, Left, Right, A, X]

  /** The substrate layout: one input per pixel, one output per active button. */
  class Substrate {
    const width: nat
    const height: nat
    const activeButtons: seq<Button>
    const inputCoords: seq<Coord>
    const outputCoords: seq<Coord>

    ghost predicate Valid()
    {
      && activeButtons == ActiveButtons
      && inputCoords == MeshGrid(width, height)
      && |outputCoords| == |ActiveButtons|
      && forall i :: 0 <= i < |ActiveButtons| ==>
           outputCoords[i] == Coord(EvenlySpaced(|ActiveButtons|, i), 1.0)
    }

    constructor (width: nat := 128, height: nat := 112)
      ensures Valid() && this.width == width && this.height == height
    {
      this.width := width;
      this.height := height;
      inputCoords := MeshGrid(width, height);
      activeButtons := ActiveButtons;
      var row := ButtonRow(|ActiveButtons|, 1.0);
      outputCoords := row;
    }

    /** The phenotype: a (width*height) x 8 matrix whose cell [j, i] is the CPPN at (input j, output i). */
    method BuildPhenotype(cppn: Cppn) returns (weights: array2<real>)
      requires Valid()
      ensures fresh(weights)
      ensures weights.Length0 == width * height && weights.Length1 == |ActiveButtons|
      ensures forall j, i :: 0 <= j < weights.Length0 && 0 <= i < weights.Length1 ==>
                weights[j, i] == Query(cppn, inputCoords[j], outputCoords[i])
    {
      weights := Compile(inputCoords, outputCoords, cppn);
    }
  }

  /** Eight outputs on the line y = 1, from x = -1 to x = 1, left to right. */
  lemma OutputLayout(s: Substrate)
    requires s.Valid()
    ensures |s.outputCoords| == 8
    ensures s.outputCoords[0] == Coord(-1.0, 1.0) && s.outputCoords[7] == Coord(1.0, 1.0)
    ensures forall i, j :: 0 <= i < j < 8 ==> s.outputCoords[i].x < s.outputCoords[j].x
  {
    forall i, j | 0 <= i < j < 8
      ensures s.outputCoords[i].x < s.outputCoords[j].x
    {
      EvenlySpacedIncreasing(8, i, j);
    }
  }

  /** No feedback inputs: pixel (r, c) is input r*width + c, at (x_range[c], y_range[r]). */
  lemma InputLayout(s: Substrate, r: nat, c: nat)
    requires s.Valid() && r < s.height && c < s.width
    ensures |s.inputCoords| == s.width * s.height
    ensures s.inputCoords[r * s.width + c] == Coord(Linspace(s.width, c), Linspace(s.height, r))
  {
    MeshGridAt(s.width, s.height, r, c);
  }

  /** Screen inputs of the baseline: each 8-bit pixel divided by 255, into [0, 1]. */
  function ScreenInputs(pixels: seq<Pixel>): (v: seq<real>)
    ensures |v| == |pixels|
  {
    seq(|pixels|, i requires 0 <= i < |pixels| => pixels[i] as real / 255.0)
  }

  /** Every screen input lies in [0, 1], and the pixel is recovered as v * 255. */
  lemma ScreenInputsRange(pixels: seq<Pixel>)
    ensures forall i :: 0 <= i < |pixels| ==>
              0.0 <= ScreenInputs(pixels)[i] <= 1.0 && ScreenInputs(pixels)[i] * 255.0 == pixels[i] as real
  {
  }

  /** The weight matrix has one row per pixel of every observed screen and one column per button. */
  predicate Fits(weights: array2<real>, trace: seq<Observation>)
  {
    && weights.Length1 == |ActiveButtons|
    && forall k :: 1 <= k < |trace| ==> |trace[k].pixels| == weights.Length0
  }

  /** The squashed network outputs for one observed screen. */
  function Squashed(weights: array2<real>, sig: real -> real, o: Observation): (out: seq<real>)
    requires |o.pixels| == weights.Length0
    reads weights
    ensures |out| == weights.Length1
  {
    Squash(sig, Outputs(ScreenInputs(o.pixels), weights))
  }

  /** The button vectors sent to the emulator for the first n reads inside the loop, trace[1..n]. */
  function Sent(weights: array2<real>, sig: real -> real, trace: seq<Observation>, n: nat): (sent: seq<seq<bool>>)
    requires Fits(weights, trace) && n < |trace|
    reads weights
    ensures |sent| == n
    ensures forall k :: 0 <= k < n ==> |sent[k]| == |ActiveButtons|
  {
    if n == 0 then [] else Sent(weights, sig, trace, n - 1) + [Threshold(Squashed(weights, sig, trace[n]))]
  }

  lemma SentStep(weights: array2<real>, sig: real -> real, trace: seq<Observation>, n: nat)
    requires Fits(weights, trace) && n + 1 < |trace|
    ensures Sent(weights, sig, trace, n + 1) ==
            Sent(weights, sig, trace, n) + [Threshold(Squashed(weights, sig, trace[n + 1]))]
  {
  }

  /** Frame k sends the thresholded outputs for the screen of read k + 1, and nothing else. */
  lemma {:induction false} SentAt(weights: array2<real>, sig: real -> real, trace: seq<Observation>, n: nat, k: nat)
    requires Fits(weights, trace) && k < n < |trace|
    ensures Sent(weights, sig, trace, n)[k] == Threshold(Squashed(weights, sig, trace[k + 1]))
  {
    if k < n - 1 {
      SentAt(weights, sig, trace, n - 1, k);
    }
  }

  /** One frame of the controller: screen to inputs, forward pass, squashing, thresholding. */
  method Respond(weights: array2<real>, sig: real -> real, obs: Observation) returns (buttons: seq<bool>)
    requires |obs.pixels| == weights.Length0
    ensures buttons == Threshold(Squashed(weights, sig, obs))
  {
    var inputs := ScreenInputs(obs.pixels);
    var outputs := Squash(sig, Outputs(inputs, weights));
    buttons := DecideButtons(outputs);
  }

  datatype Evaluation =
    | ConnectFailed
    | NoInitialState
    | Scored(initialX: int, maxDistance: int, stagnation: nat, exit: Exit, sent: seq<seq<bool>>)

  /**
   One genome's evaluation. `connected` says whether the bridge already had a
   socket, `connects` whether connecting succeeds; trace[0] is the state read
   after the reset.
   */
  function Evaluate(weights: array2<real>, sig: real -> real, connected: bool, connects: bool,
                    trace: seq<Observation>): Evaluation
    requires Fits(weights, trace)
    reads weights
  {
    if !connected && !connects then ConnectFailed
    else if trace == [] then NoInitialState
    else
      var x0 := trace[0].marioX;
      var exit := LoopExit(x0, Xs(trace), 0);
      var t := TrackAll(x0, Xs(trace), Reads(exit));
      Scored(x0, t.maxDistance, t.stagnation, exit, Sent(weights, sig, trace, Reads(exit)))
  }

  lemma EvaluateScored(weights: array2<real>, sig: real -> real, connected: bool, connects: bool,
                       trace: seq<Observation>)
    requires Fits(weights, trace) && (connected || connects) && trace != []
    ensures var x0 := trace[0].marioX;
            var exit := LoopExit(x0, Xs(trace), 0);
            var t := TrackAll(x0, Xs(trace), Reads(exit));
            Evaluate(weights, sig, connected, connects, trace) ==
              Scored(x0, t.maxDistance, t.stagnation, exit, Sent(weights, sig, trace, Reads(exit)))
  {
  }

  /** The baseline fitness: the maximum x position, or 0 when the evaluation could not start. */
  function Fitness(e: Evaluation): int
  {
    if e.Scored? then e.maxDistance else 0
  }

  /**
   What every evaluation satisfies: the failure cases score 0; otherwise the
   fitness is the maximum distance, at least the initial position and every
   position read, at most 600 frames ran, one action was sent per read, and a
   stagnation exit came after at least 60 frames.
   */
  lemma EvaluationFacts(weights: array2<real>, sig: real -> real, connected: bool, connects: bool,
                        trace: seq<Observation>)
    requires Fits(weights, trace)
    ensures var e := Evaluate(weights, sig, connected, connects, trace);
            && (e.ConnectFailed? <==> !connected && !connects)
            && (e.NoInitialState? <==> (connected || connects) && trace == [])
            && (!e.Scored? ==> Fitness(e) == 0)
    ensures var e := Evaluate(weights, sig, connected, connects, trace);
            e.Scored? ==>
              && e.initialX == trace[0].marioX
              && e.initialX <= e.maxDistance == Fitness(e)
              && (forall k :: 1 <= k <= Reads(e.exit) ==> trace[k].marioX <= e.maxDistance)
              && e.exit.frame <= MaxFrames
              && |e.sent| == Reads(e.exit) <= e.exit.frame + 1
              && (e.exit.reason == Stagnated ==> e.exit.frame >= StagnationLimit)
  {
    var e := Evaluate(weights, sig, connected, connects, trace);
    if e.Scored? {
      var x0 := trace[0].marioX;
      var xs := Xs(trace);
      var n := Reads(e.exit);
      RunningMaximum(x0, xs, n);
      StagnationExit(x0, xs);
      forall k | 1 <= k <= n
        ensures trace[k].marioX <= e.maxDistance
      {
        assert xs[k - 1] == trace[k].marioX;
      }
    }
  }

  /**
   No conflict resolution: under a logistic squashing each button, Left and
   Right included, is sent exactly when its raw activation is positive, so
   both directions can reach the emulator in the same frame.
   */
  lemma PressedIffPositiveActivation(weights: array2<real>, sig: real -> real, connected: bool,
                                     connects: bool, trace: seq<Observation>, k: nat, i: nat)
    requires Fits(weights, trace) && LogisticLike(sig)
    requires Evaluate(weights, sig, connected, connects, trace).Scored?
    requires k < |Evaluate(weights, sig, connected, connects, trace).sent| && i < |ActiveButtons|
    ensures Evaluate(weights, sig, connected, connects, trace).sent[k][i] <==>
            Dot(ScreenInputs(trace[k + 1].pixels), weights, i) > 0.0
  {
    var e := Evaluate(weights, sig, connected, connects, trace);
    SentAt(weights, sig, trace, Reads(e.exit), k);
    PressedIffPositive(sig, Outputs(ScreenInputs(trace[k + 1].pixels), weights));
    OutputsAt(ScreenInputs(trace[k + 1].pixels), weights);
  }

  /** The evaluator; the bridge it owns is replaced by the connection flags and the trace. */
  class NeatoBrain {
    const substrate: Substrate

    constructor ()
      ensures substrate.Valid() && substrate.width == 128 && substrate.height == 112
    {
      substrate := new Substrate();
    }

    /**
     The frame loop from the initial read on: returns the frame counter, the
     maximum distance and the stagnation counter where the loop stopped;
     `sent` is the button vectors handed to the emulator.
     */
    method RunFrames(weights: array2<real>, trace: seq<Observation>, sig: real -> real)
      returns (currentFrame: nat, maxDistance: int, stagnationCounter: nat, ghost sent: seq<seq<bool>>)
      requires Fits(weights, trace) && trace != []
      ensures currentFrame == LoopExit(trace[0].marioX, Xs(trace), 0).frame
      ensures Tracker(maxDistance, stagnationCounter) ==
              TrackAll(trace[0].marioX, Xs(trace), Reads(LoopExit(trace[0].marioX, Xs(trace), 0)))
      ensures sent == Sent(weights, sig, trace, Reads(LoopExit(trace[0].marioX, Xs(trace), 0)))
    {
      var initialX := trace[0].marioX;
      currentFrame := 0;
      maxDistance := initialX;
      stagnationCounter := 0;
      sent := [];
      ghost var xs := Xs(trace);
      while currentFrame < MaxFrames
        invariant currentFrame <= MaxFrames && currentFrame < |trace|
        invariant NoExitBefore(initialX, xs, currentFrame)
        invariant Tracker(maxDistance, stagnationCounter) == TrackAll(initialX, xs, currentFrame)
        invariant sent == Sent(weights, sig, trace, currentFrame)
      {
        if currentFrame + 1 >= |trace| {
          LoopExitFrom(initialX, xs, 0, currentFrame);
          return;
        }
        var obs := trace[currentFrame + 1];
        var buttons := Respond(weights, sig, obs);
        SentStep(weights, sig, trace, currentFrame);
        sent := sent + [buttons];
        var currentDistance := obs.marioX;
        assert xs[currentFrame] == currentDistance;
        ProgressStep(initialX, xs, currentFrame, Tracker(maxDistance, stagnationCounter));
        if currentDistance > maxDistance {
          maxDistance := currentDistance;
          stagnationCounter := 0;
        } else {
          stagnationCounter := stagnationCounter + 1;
        }
        if stagnationCounter > StagnationLimit {
          return;
        }
        currentFrame := currentFrame + 1;
      }
      LoopExitFrom(initialX, xs, 0, currentFrame);
    }

    /** Runs one genome and returns its fitness, 0 when the bridge cannot connect or the first read fails. */
    method RunSimulation(weights: array2<real>, connected: bool, connects: bool,
                         trace: seq<Observation>, sig: real -> real)
      returns (fitness: int, ghost sent: seq<seq<bool>>)
      requires Fits(weights, trace)
      ensures fitness == Fitness(Evaluate(weights, sig, connected, connects, trace))
      ensures Evaluate(weights, sig, connected, connects, trace).Scored? ==>
                sent == Evaluate(weights, sig, connected, connects, trace).sent
    {
      sent := [];
      if !connected && !connects {
        return 0, sent;
      }
      if trace == [] {
        return 0, sent;
      }
      var currentFrame, maxDistance, stagnationCounter;
      currentFrame, maxDistance, stagnationCounter, sent := RunFrames(weights, trace, sig);
      fitness := maxDistance;
      EvaluateScored(weights, sig, connected, connects, trace);
    }
  }
}
