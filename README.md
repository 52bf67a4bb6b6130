# neato evaluator model

A Dafny model of the evaluator core of neato. neato is a HyperNEAT
controller for a Mario game on the SNES, run in the BizHawk emulator. A CPPN genome is compiled into a dense
weight matrix over a fixed substrate. The matrix maps grayscale screen pixels
to SNES buttons, and one genome is scored by playing up to 600 frames
against an emulator bridge.

The project models both evaluator variants:

- `runs/run2_runner.py` (module `Run2Runner`). It has five buttons. The
  previous frame's presses are fed back as five extra inputs on the line
  y = -1.2. Left/Right conflicts are resolved by output magnitude. The
  fitness adds a bonus per frame that sent Right and a velocity bonus.
- `neato_brain.py` (module `NeatoBrain`), the baseline. It has eight
  buttons, pixels scaled to [0, 1] and no feedback. Left and Right may go
  out together, and the fitness is the maximum x position reached.

Shared parts:

- `Geometry` has the substrate coordinates: numpy's `linspace` and
  `meshgrid` and the evenly spaced button rows. It also has `Compile`, the
  nested-loop fill of the weight matrix, which works on an `array2`.
- `Controls` has the forward pass (`numpy.dot`), the squashing function and
  the 0.5 threshold.
- `Progress` has the bookkeeping both loops share: the running maximum, the
  stagnation counter, and the three ways the loop stops (600 frames, a failed
  read, more than 60 frames without progress).

How the collaborators are modelled:

- **The emulator bridge** is an observation trace. `trace[0]` is the state
  read right after the reset. `trace[k + 1]` is the read at loop frame k.
  Reading past the end of the trace is a `get_state` that returned nothing.
  Each read yields the player's x position and the grayscale screen as 8-bit
  pixels.
- **Connecting** is two flags: whether a socket already exists, and whether
  `connect` succeeds.
- **The logistic function** is a parameter `sig`. The lemmas that relate
  decisions to raw activations assume only what they use of it:
  `sig(0) = 0.5`, strictly increasing, and positive.

Each loop is written as a `while` loop with invariants. It is proved against
specification functions:

- `TrackAll`: the tracker after n reads.
- `LoopExit`: the first frame at which the loop stops.
- `Sent`, or `PlayTo` in run 2: the controller state after n frames.
- `Evaluate`: the whole evaluation.

The properties are proved as lemmas about those functions.

In `runs/run2_runner.py` the feedback vector is filled at lines 210–217,
before the conflict is resolved at lines 223–230. So a frame with a conflict
feeds both Left and Right back as pressed. `Run2Runner.FeedbackBeforeResolution`
states exactly this.

## Model

| member | source | states |
|---|---|---|
| Geometry.EvenlySpaced | runs/run2_runner.py:63 | the button x position -1 + 2i/(n-1) lies in [-1, 1]; it is -1 exactly for the first button and 1 exactly for the last |
| Geometry.EvenlySpacedIncreasing | runs/run2_runner.py:62-65 | button x positions strictly increase with the index, so Left sits left of Right |
| Geometry.Linspace | runs/run2_runner.py:42-43 | a linspace(-1, 1, num) element lies in [-1, 1]; the first is -1 and, for two or more points, the last is 1 |
| Geometry.LinspaceIncreasing | runs/run2_runner.py:42-43 | linspace elements strictly increase |
| Geometry.MeshGrid | runs/run2_runner.py:42-47 | the screen coordinates: meshgrid of the two linspace ranges, flattened row by row; its layout is MeshGridAt and its bounds MeshGridBounds |
| Geometry.MeshGridAt | runs/run2_runner.py:42-47 | the flattened meshgrid has width*height points, and point r*width + c is (x_range[c], y_range[r]) (row-major) |
| Geometry.MeshGridBounds | runs/run2_runner.py:42-47 | every screen coordinate lies in [-1, 1] x [-1, 1] |
| Geometry.ButtonRow | runs/run2_runner.py:60-66 | the append loop yields n coordinates, coordinate i being (-1 + 2i/(n-1), y) |
| Geometry.Compile | runs/run2_runner.py:97-119 | a newly allocated matrix with one row per input and one column per output, and every cell [j, i] is the CPPN queried at (input j, output i) |
| Controls.IndexOf | runs/run2_runner.py:225-226 | list.index: the position holds the button and no earlier position does |
| Controls.Outputs | runs/run2_runner.py:202 | numpy.dot of the input vector with the weight matrix, one raw activation per output column; OutputsAt gives each column |
| Controls.OutputsAt | runs/run2_runner.py:202 | the forward pass gives one activation per column, each the dot product of the input vector with that weight column |
| Controls.Squash | runs/run2_runner.py:206 | the logistic squashing applied to each raw activation, keeping the length; PressedIffPositive and MagnitudeOrderIsRawOrder relate it to the raw activations |
| Controls.Threshold | neato_brain.py:151-155 | button i is pressed when squashed output i exceeds 0.5; DecideButtons is the loop proved equal to it |
| Controls.DecideButtons | neato_brain.py:153-155 | the per-button loop presses button i exactly when output i exceeds 0.5 |
| Controls.PressedIffPositive | neato_brain.py:151-155 | under a logistic squashing a button is pressed exactly when its raw activation is positive |
| Controls.MagnitudeOrderIsRawOrder | runs/run2_runner.py:227 | under a logistic squashing, comparing the absolute squashed outputs compares the raw activations |
| Progress.Track | runs/run2_runner.py:241-246 | one frame of max_distance and stagnation_counter bookkeeping (also neato_brain.py:162-167); its properties are TrackFacts |
| Progress.TrackFacts | runs/run2_runner.py:241-246 | one frame's update: the maximum becomes the larger of the old maximum and the position; the counter is reset to 0 exactly on a strict improvement and otherwise grows by exactly 1 |
| Progress.LoopExit | runs/run2_runner.py:176-252 | the loop stops between frame k and 600 without reading past the trace; the frame cap stops it only at 600, a failed read only when the trace is exhausted, stagnation only on a counter above 60; every frame passed kept the counter within 60 |
| Progress.RunningMaximum | runs/run2_runner.py:241-244 | the maximum is at least the start, bounds every position read, and is the start or one of those positions |
| Progress.MaxNeverDecreases | runs/run2_runner.py:241-244 | max_distance after k reads is at most max_distance after any later read count |
| Progress.StagnationWindow | runs/run2_runner.py:241-246 | the counter is the length of the trailing run of non-improving reads: the maximum is fixed over that run, and the read before it set the maximum by a strict improvement |
| Progress.StagnationExit | runs/run2_runner.py:249-250 | a stagnation exit happens at frame 60 or later, with the counter at exactly 61 and none of the last 61 positions above the maximum |
| Progress.StuckLoopStagnates | runs/run2_runner.py:241-252 | 61 consecutive reads that do not beat the maximum force a stagnation exit no later than the last of them |
| Progress.AdvancingRunsToFailedRead | runs/run2_runner.py:182-185 | a trace that improves on every read and has fewer than 600 in-loop reads is read to its end: the loop stops on the failed read, with the last position as the maximum and the counter at 0 |
| NeatoBrain.Substrate.constructor | neato_brain.py:9-38 | the baseline substrate has the grid as inputs and eight outputs at (-1 + 2i/7, 1), default screen 128 x 112 |
| NeatoBrain.Substrate.BuildPhenotype | neato_brain.py:53-75 | the phenotype is a newly allocated (width*height) x 8 matrix and every cell is the CPPN query for its input/output pair |
| NeatoBrain.OutputLayout | neato_brain.py:26-38 | eight outputs on y = 1 from (-1, 1) to (1, 1), x strictly increasing |
| NeatoBrain.InputLayout | neato_brain.py:15-20 | width*height inputs and no feedback; pixel (r, c) is input r*width + c at (x_range[c], y_range[r]) |
| NeatoBrain.ScreenInputs | neato_brain.py:143 | the baseline screen input, one value pixel/255 per pixel; its range and inverse are ScreenInputsRange |
| NeatoBrain.ScreenInputsRange | neato_brain.py:143 | pixel/255 lies in [0, 1] and times 255 gives back the pixel |
| NeatoBrain.Respond | neato_brain.py:142-155 | one frame's presses are the thresholded squashed dot product of the scaled screen with the weights |
| NeatoBrain.SentAt | neato_brain.py:147-158 | the vector sent at frame k is the thresholded output for read k + 1 in every later state of the loop |
| NeatoBrain.Evaluate | neato_brain.py:99-175 | the outcome of run_simulation: a failed connect, a failed first read, or the scored counters at the loop exit LoopExit gives; its properties are EvaluationFacts |
| NeatoBrain.EvaluationFacts | neato_brain.py:104-175 | the failures are exactly a failed connect or a failed first read, and both score 0; otherwise the fitness is the maximum distance, which is at least the start and every position read; at most 600 frames run, one vector is sent per read, and a stagnation exit comes at frame 60 or later |
| NeatoBrain.PressedIffPositiveActivation | neato_brain.py:147-158 | with no conflict resolution, every button sent, Left and Right included, is sent exactly when its raw activation is positive |
| NeatoBrain.NeatoBrain.constructor | neato_brain.py:78-79 | the evaluator owns a default 128 x 112 baseline substrate |
| NeatoBrain.NeatoBrain.RunFrames | neato_brain.py:122-173 | the loop ends at the frame LoopExit gives, with the maximum and counter of TrackAll after the reads made and the vectors Sent for them |
| NeatoBrain.NeatoBrain.RunSimulation | neato_brain.py:99-175 | the returned fitness is the specified one: 0 on a failed connect or first read, otherwise the maximum distance |
| Run2Runner.Substrate.constructor | runs/run2_runner.py:36-81 | the run 2 substrate has the grid, five outputs at (-1 + 2i/4, 1), five feedback points at (-1 + 2i/4, -1.2), and all inputs = grid followed by the feedback points |
| Run2Runner.Substrate.BuildPhenotype | runs/run2_runner.py:83-119 | the phenotype is a newly allocated (width*height + 5) x 5 matrix, and every cell, feedback rows included, is the CPPN query for its pair |
| Run2Runner.ConflictColumns | runs/run2_runner.py:225-226 | active_buttons.index finds Left at column 2 and Right at column 3 |
| Run2Runner.OutputLayout | runs/run2_runner.py:54-66 | five outputs on y = 1 from (-1, 1) to (1, 1), x strictly increasing |
| Run2Runner.FeedbackLayout | runs/run2_runner.py:71-81 | as many feedback points as outputs, each at its output's x on y = -1.2, below every screen input; they are the last inputs |
| Run2Runner.InputLayout | runs/run2_runner.py:42-81 | width*height + 5 inputs; pixel (r, c) is input r*width + c at (x_range[c], y_range[r]) |
| Run2Runner.ScreenInputs | runs/run2_runner.py:191 | the run 2 screen input, one value pixel/127.5 - 1 per pixel; its range and inverse are ScreenInputsRange |
| Run2Runner.ScreenInputsRange | runs/run2_runner.py:191 | pixel/127.5 - 1 lies in [-1, 1] and (v + 1) * 127.5 gives back the pixel |
| Run2Runner.FeedbackInputs | runs/run2_runner.py:194-196 | the previous presses mapped to feedback inputs 2b - 1, one per button; FeedbackBeforeResolution states the values they take |
| Run2Runner.Resolve | runs/run2_runner.py:223-230 | the Left/Right conflict rule by output magnitude; its properties are ResolveFacts |
| Run2Runner.ResolveFacts | runs/run2_runner.py:223-230 | with Left and Right both pressed exactly one survives: Left exactly when its output magnitude is strictly larger, so a tie keeps Right; the other buttons and conflict-free frames are unchanged, and nothing unpressed is sent |
| Run2Runner.Respond | runs/run2_runner.py:191-230 | one frame returns the unresolved press vector as the next feedback and the resolved vector as the one to send |
| Run2Runner.DecideAndRecord | runs/run2_runner.py:210-217 | the per-button loop presses button i exactly when output i exceeds 0.5 and records it as 1.0, else 0.0 |
| Run2Runner.ControllerFrame | runs/run2_runner.py:191-237 | the controller part of the loop body advances the carried state (feedback, sent vectors, Right count) by exactly one specified frame |
| Run2Runner.SentAt | runs/run2_runner.py:198-230 | the vector sent at frame k is the resolved decision of frame k in every later state, and the feedback after frame k is that frame's unresolved press vector |
| Run2Runner.RightPressesCounted | runs/run2_runner.py:236-237 | the running Right count equals the number of sent vectors that hold Right |
| Run2Runner.FeedbackBeforeResolution | runs/run2_runner.py:210-230 | the fed-back input is 1 exactly when the output exceeded 0.5 and -1 otherwise; the sent vector agrees with it except on a conflict, where both are fed back pressed but exactly one is sent |
| Run2Runner.DecisionsByRawActivation | runs/run2_runner.py:202-230 | under a logistic squashing a button is pressed exactly when its raw activation is positive, and in a conflict Right is sent exactly when Left's raw activation is not larger |
| Run2Runner.NoConflictSent | runs/run2_runner.py:223-233 | no sent vector ever holds both Left and Right |
| Run2Runner.FitnessFormula | runs/run2_runner.py:254-270 | the velocity-bonus fitness, maximum + Right count + 10 x average speed, the speed 0 at frame 0; its properties are FitnessAtLeastDistance and FitnessMonotone |
| Run2Runner.FitnessAtLeastDistance | runs/run2_runner.py:258-270 | with the maximum at least the start, the fitness is at least maximum + Right count, and exactly that when no frame was counted |
| Run2Runner.FitnessMonotone | runs/run2_runner.py:258-270 | with start, Right count and frame count fixed, the fitness does not decrease as the maximum grows |
| Run2Runner.Evaluate | runs/run2_runner.py:143-270 | the outcome of run_simulation: a failed connect, a failed first read, or the scored counters and PlayTo state at the loop exit LoopExit gives; its properties are EvaluationFailures, EvaluationProgress and EvaluationFitness |
| Run2Runner.EvaluationFailures | runs/run2_runner.py:148-161 | an evaluation fails exactly on a failed connect or a failed first read, and then scores 0 |
| Run2Runner.EvaluationProgress | runs/run2_runner.py:163-252 | a scored run starts from the first read, its maximum bounds every position read, at most 600 frames run, one vector is sent per read, the Right count is the number of sent vectors holding Right and at most current_frame + 1, and a stagnation exit comes at frame 60 or later |
| Run2Runner.EvaluationFitness | runs/run2_runner.py:254-270 | a scored fitness is at least maximum + Right count, hence at least the start, and exactly the start when no frame was counted |
| Run2Runner.MockServerScenario | runs/run2_runner.py:176-252 | a start at x = 120 followed by ten reads one pixel further each and then a failed read: the loop stops on that read at frame 10 with maximum 130 and fitness 130 + Right count + 10 |
| Run2Runner.NeatoBrain.constructor | runs/run2_runner.py:122-123 | the evaluator owns a default 128 x 112 run 2 substrate |
| Run2Runner.NeatoBrain.RunFrames | runs/run2_runner.py:167-252 | the loop ends at the frame LoopExit gives, with the maximum and counter of TrackAll after the reads made, and the sent vectors and Right count of PlayTo for them |
| Run2Runner.NeatoBrain.RunSimulation | runs/run2_runner.py:143-270 | the returned fitness is the specified one: 0 on a failed connect or first read, otherwise the velocity-bonus formula over the loop's final counters |

## Left out

- The bridge client (`neato_client.py`) is not part of this model. Its
  socket connect, send and receive, and its close-on-error handling are I/O.
  The client as written never parses a state reply and never sets
  `mario_x`. So with that client `self.bridge.mario_x`
  (`runs/run2_runner.py:163`, `neato_brain.py:119`) raises
  AttributeError. The model describes the evaluator against a client that
  parses the reply: the x position of each read is taken from the
  observation trace.
- `bridge.reset()` has no modelled effect, and `time.sleep` and `print` are
  not modelled.
- `bridge.act(buttons)` is modelled only as the vector it is handed.
  `RunFrames` returns these vectors in the ghost result `sent`.
- The button dictionary is a boolean vector in `active_buttons` order, and
  button names are an enumeration. The string case of the names is not
  modelled: the baseline lists `'UP'`, `'LEFT'`, while run 2 lists
  `'Left'`, `'Right'`.
- `cv2.cvtColor` grayscale conversion is not modelled. The screen is given
  directly as 8-bit grayscale pixels, in row-major order.
- Floating point is modelled as exact reals. This covers numpy's
  `linspace`, the divisions by 255 and 127.5, and the fitness division.
  `np.exp` is replaced by the parameter `sig`, so rounding is not
  captured.
- In float64 the logistic saturates: 1/(1+exp(-x)) is exactly 1.0 for x
  above about 37. So the program's squashing is not strictly increasing, and
  the `LogisticLike` premise holds only of the ideal logistic.
  `Run2Runner.Resolve` and `Run2Runner.ResolveFacts` hold for any `sig`.
  When Left and Right both saturate, the comparison at
  `runs/run2_runner.py:227` is a tie and Right is kept, as `Resolve` says.
- Controls.MagnitudeOrderIsRawOrder, Controls.PressedIffPositive,
  NeatoBrain.PressedIffPositiveActivation and
  Run2Runner.DecisionsByRawActivation assume `LogisticLike`. They describe
  the ideal logistic, not the saturating float64 one.
- The neat library is not part of this model: building the CPPN network,
  populations, reporters, checkpoints and `pickle`. Neither are `evaluate`,
  which loops over the genomes, or `run()` in either file. The CPPN itself is
  an arbitrary function of four reals.
- A weight matrix whose shape does not fit the screen makes `numpy.dot`
  raise. The model requires matching shapes instead (`Fits`): one row per
  pixel (plus five feedback rows in run 2) and one column per button, for
  every in-loop read. The first read is only checked for `None`, so its
  screen is unconstrained.
- `connect` failures other than a refused connection propagate out of
  `run_simulation` as exceptions in the source, since `neato_client.py`
  catches only `ConnectionRefusedError`. The `connects` flag models every
  failed connect as a 0 score, so those exceptions are not captured.
- The unused `config` argument of `build_phenotype` is dropped.
- `main.py` and the test scripts (`test_fitness.py`, `test_reset.py`,
  `test_vision.py`) are not part of this model.
- The frame loop is split into several methods:
  - `RunSimulation` holds the connection checks and the final fitness.
  - `RunFrames` holds the `while` loop.
  - `Respond` and `ControllerFrame` (run 2) hold the controller part of
    one loop pass.

  The source has one function.
- Geometry.ButtonRow: requires n != 1. The source divides by zero for a
  single button; n = 0 yields an empty row, as in the source. Both variants
  use five or eight buttons.
