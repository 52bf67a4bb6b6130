/**
 Progress tracking of one genome evaluation: the running maximum of the
 player's x position, the stagnation counter, and the three ways the frame
 loop ends. Both evaluator variants share this bookkeeping exactly.

 The emulator is an observation trace: trace[0] is the state read before the
 loop, trace[k + 1] the k-th read inside it, and reading past the end of the
 trace is a read that returned no state.
 */
module Progress {

  /** A grayscale pixel of the captured screen. */
  type Pixel = p: int | 0 <= p < 256

  /** What one successful state read yields: the player's x position and the screen. */
  datatype Observation = Observation(marioX: int, pixels: seq<Pixel>)

  /** Frame budget of one evaluation. */
  const MaxFrames: nat := 600

  /** The loop ends once more than this many consecutive frames made no progress. */
  const StagnationLimit: nat := 60

  datatype Tracker = Tracker(maxDistance: int, stagnation: nat)

  datatype StopReason = FrameCap | ReadFailed | Stagnated

  /** Where the loop ended: the frame counter then, and why. */
  datatype Exit = Exit(frame: nat, reason: StopReason)

  /** The x positions of the reads made inside the loop. */
  function Xs(trace: seq<Observation>): (xs: seq<int>)
    requires trace != []
    ensures |xs| == |trace| - 1
    ensures forall k :: 0 <= k < |xs| ==> xs[k] == trace[k + 1].marioX
  {
    seq(|trace| - 1, k requires 0 <= k < |trace| - 1 => trace[k + 1].marioX)
  }

  /** One frame of bookkeeping for a newly observed position x. */
  function Track(t: Tracker, x: int): Tracker
  {
    if x > t.maxDistance then Tracker(x, 0) else Tracker(t.maxDistance, t.stagnation + 1)
  }

  /**
   The maximum becomes the larger of the old maximum and x, and the counter
   resets exactly on a strict improvement and otherwise grows by one.
   */
  lemma TrackFacts(t: Tracker, x: int)
    ensures Track(t, x).maxDistance >= t.maxDistance && Track(t, x).maxDistance >= x
    ensures Track(t, x).maxDistance == t.maxDistance || Track(t, x).maxDistance == x
    ensures Track(t, x).stagnation == 0 <==> x > t.maxDistance
    ensures x <= t.maxDistance ==> Track(t, x).stagnation == t.stagnation + 1
  {
  }

  /** The tracker after observing xs[0], ..., xs[n - 1] in order, starting from the initial position x0. */
  function TrackAll(x0: int, xs: seq<int>, n: nat): Tracker
    requires n <= |xs|
  {
    if n == 0 then Tracker(x0, 0) else Track(TrackAll(x0, xs, n - 1), xs[n - 1])
  }

  /** The stagnation counter right after the read at frame j. */
  function CounterAt(x0: int, xs: seq<int>, j: nat): nat
    requires j < |xs|
  {
    TrackAll(x0, xs, j + 1).stagnation
  }

  /** The number of state reads the loop made before it ended. */
  function Reads(e: Exit): nat
  {
    if e.reason == Stagnated then e.frame + 1 else e.frame
  }

  /**
   The loop from frame k on, given that k reads inside the loop have
   succeeded: it ends at the first frame where the frame cap is reached, the
   next read fails, or the read makes the stagnation counter exceed its limit.
   */
  function LoopExit(x0: int, xs: seq<int>, k: nat): (e: Exit)
    requires k <= MaxFrames && k <= |xs|
    ensures k <= e.frame <= MaxFrames && Reads(e) <= |xs|
    ensures e.reason == FrameCap ==> e.frame == MaxFrames
    ensures e.reason == ReadFailed ==> e.frame == |xs| < MaxFrames
    ensures e.reason == Stagnated ==> e.frame < MaxFrames && CounterAt(x0, xs, e.frame) > StagnationLimit
    ensures forall j :: k <= j < e.frame ==> CounterAt(x0, xs, j) <= StagnationLimit
    decreases MaxFrames - k
  {
    if k == MaxFrames then Exit(k, FrameCap)
    else if k == |xs| then Exit(k, ReadFailed)
    else if CounterAt(x0, xs, k) > StagnationLimit then Exit(k, Stagnated)
    else LoopExit(x0, xs, k + 1)
  }

  /** No stagnation exit happened at any of the frames before n. */
  predicate NoExitBefore(x0: int, xs: seq<int>, n: nat)
    requires n <= |xs|
  {
    n == 0 || (NoExitBefore(x0, xs, n - 1) && CounterAt(x0, xs, n - 1) <= StagnationLimit)
  }

  lemma {:induction false} NoExitBeforeAt(x0: int, xs: seq<int>, k: nat, n: nat)
    requires k < n <= |xs| && NoExitBefore(x0, xs, n)
    ensures CounterAt(x0, xs, k) <= StagnationLimit
    decreases n
  {
    if k < n - 1 {
      NoExitBeforeAt(x0, xs, k, n - 1);
    }
  }

  /** A loop that has passed frame n without stopping ends where the loop from frame n ends. */
  lemma {:induction false} LoopExitFrom(x0: int, xs: seq<int>, k: nat, n: nat)
    requires k <= n <= MaxFrames && n <= |xs| && NoExitBefore(x0, xs, n)
    ensures LoopExit(x0, xs, k) == LoopExit(x0, xs, n)
    decreases n - k
  {
    if k < n {
      LoopExitFrom(x0, xs, k + 1, n);
      NoExitBeforeAt(x0, xs, k, n);
    }
  }

  /**
   One frame of the loop's bookkeeping: tracking the position read at frame n
   yields the tracker after n + 1 reads, and either the loop stops there by
   stagnation or it has passed frame n + 1 without stopping.
   */
  lemma ProgressStep(x0: int, xs: seq<int>, n: nat, t: Tracker)
    requires n < |xs| && n < MaxFrames
    requires t == TrackAll(x0, xs, n) && NoExitBefore(x0, xs, n)
    ensures Track(t, xs[n]) == TrackAll(x0, xs, n + 1)
    ensures Track(t, xs[n]).stagnation > StagnationLimit ==> LoopExit(x0, xs, 0) == Exit(n, Stagnated)
    ensures Track(t, xs[n]).stagnation <= StagnationLimit ==> NoExitBefore(x0, xs, n + 1)
  {
    LoopExitFrom(x0, xs, 0, n);
  }

  /** The maximum starts at x0, is reached by x0 or by an observed position, and bounds all of them. */
  lemma {:induction false} RunningMaximum(x0: int, xs: seq<int>, n: nat)
    requires n <= |xs|
    ensures TrackAll(x0, xs, n).maxDistance >= x0
    ensures forall j :: 0 <= j < n ==> xs[j] <= TrackAll(x0, xs, n).maxDistance
    ensures TrackAll(x0, xs, n).maxDistance == x0 ||
            exists j :: 0 <= j < n && xs[j] == TrackAll(x0, xs, n).maxDistance
  {
    if n > 0 {
      RunningMaximum(x0, xs, n - 1);
    }
  }

  /** max_distance never decreases as the evaluation proceeds. */
  lemma {:induction false} MaxNeverDecreases(x0: int, xs: seq<int>, k: nat, n: nat)
    requires k <= n <= |xs|
    ensures TrackAll(x0, xs, k).maxDistance <= TrackAll(x0, xs, n).maxDistance
    decreases n - k
  {
    if k < n {
      MaxNeverDecreases(x0, xs, k + 1, n);
    }
  }

  /**
   The stagnation counter is the length of the run of trailing positions that
   did not exceed the maximum: over that run the maximum stayed fixed, and the
   position just before it was a strict improvement that set the maximum.
   */
  lemma {:induction false} StagnationWindow(x0: int, xs: seq<int>, n: nat)
    requires n <= |xs|
    ensures TrackAll(x0, xs, n).stagnation <= n
    ensures var t := TrackAll(x0, xs, n);
            forall j :: n - t.stagnation <= j < n ==> xs[j] <= t.maxDistance
    ensures var t := TrackAll(x0, xs, n);
            TrackAll(x0, xs, n - t.stagnation).maxDistance == t.maxDistance
    ensures var t := TrackAll(x0, xs, n);
            var p := n - t.stagnation - 1;
            t.stagnation < n ==> xs[p] == t.maxDistance && xs[p] > TrackAll(x0, xs, p).maxDistance
  {
    if n > 0 {
      StagnationWindow(x0, xs, n - 1);
    }
  }

  /** The counter grows by at most one per frame and starts from zero. */
  lemma CounterStep(x0: int, xs: seq<int>, f: nat)
    requires f < |xs|
    ensures f == 0 ==> CounterAt(x0, xs, f) <= 1
    ensures f > 0 ==> CounterAt(x0, xs, f) <= CounterAt(x0, xs, f - 1) + 1
  {
    if f == 0 {
      assert TrackAll(x0, xs, 0).stagnation == 0;
    }
  }

  /**
   Ending by stagnation means 61 consecutive frames without progress: the
   counter is exactly one past the limit and none of the last 61 positions
   exceeded the maximum.
   */
  lemma StagnationExit(x0: int, xs: seq<int>)
    ensures var e := LoopExit(x0, xs, 0);
            e.reason == Stagnated ==>
              && e.frame >= StagnationLimit
              && CounterAt(x0, xs, e.frame) == StagnationLimit + 1
              && forall j :: e.frame - StagnationLimit <= j <= e.frame ==>
                   xs[j] <= TrackAll(x0, xs, e.frame + 1).maxDistance
  {
    var e := LoopExit(x0, xs, 0);
    if e.reason == Stagnated {
      var f := e.frame;
      CounterStep(x0, xs, f);
      if f > 0 {
        assert CounterAt(x0, xs, f - 1) <= StagnationLimit;
      }
      StagnationWindow(x0, xs, f + 1);
    }
  }

  lemma {:induction false} StuckCounts(x0: int, xs: seq<int>, k: nat, j: nat)
    requires k + j <= |xs|
    requires forall i :: k <= i < k + j ==> xs[i] <= TrackAll(x0, xs, k).maxDistance
    ensures TrackAll(x0, xs, k + j).maxDistance == TrackAll(x0, xs, k).maxDistance
    ensures TrackAll(x0, xs, k + j).stagnation >= j
  {
    if j > 0 {
      StuckCounts(x0, xs, k, j - 1);
    }
  }

  lemma {:induction false} ExitNoLaterThan(x0: int, xs: seq<int>, i: nat, b: nat)
    requires i <= b < |xs| && b < MaxFrames
    requires CounterAt(x0, xs, b) > StagnationLimit
    ensures LoopExit(x0, xs, i).reason == Stagnated && LoopExit(x0, xs, i).frame <= b
    decreases b - i
  {
    if CounterAt(x0, xs, i) <= StagnationLimit {
      ExitNoLaterThan(x0, xs, i + 1, b);
    }
  }

  /**
   If the 61 positions read from frame k on never exceed the maximum reached
   before them, the loop ends by stagnation, at frame k + 60 at the latest,
   rather than running to the frame cap.
   */
  lemma StuckLoopStagnates(x0: int, xs: seq<int>, k: nat)
    requires k + StagnationLimit < |xs| && k + StagnationLimit < MaxFrames
    requires forall i :: k <= i <= k + StagnationLimit ==> xs[i] <= TrackAll(x0, xs, k).maxDistance
    ensures LoopExit(x0, xs, 0).reason == Stagnated
    ensures LoopExit(x0, xs, 0).frame <= k + StagnationLimit
  {
    StuckCounts(x0, xs, k, StagnationLimit + 1);
    ExitNoLaterThan(x0, xs, 0, k + StagnationLimit);
  }

  /** Every position improves on the one before it, the first on x0. */
  predicate Advancing(x0: int, xs: seq<int>)
  {
    forall j :: 0 <= j < |xs| ==> xs[j] > (if j == 0 then x0 else xs[j - 1])
  }

  lemma {:induction false} AdvancingTracker(x0: int, xs: seq<int>, k: nat)
    requires Advancing(x0, xs) && k <= |xs|
    ensures TrackAll(x0, xs, k) == Tracker(if k == 0 then x0 else xs[k - 1], 0)
  {
    if k > 0 {
      AdvancingTracker(x0, xs, k - 1);
      var j := k - 1;
      assert 0 <= j < |xs|;
      assert xs[j] > (if j == 0 then x0 else xs[j - 1]);
    }
  }

  lemma {:induction false} AdvancingExit(x0: int, xs: seq<int>, k: nat)
    requires Advancing(x0, xs) && k <= |xs| < MaxFrames
    ensures LoopExit(x0, xs, k) == Exit(|xs|, ReadFailed)
    decreases |xs| - k
  {
    if k < |xs| {
      AdvancingTracker(x0, xs, k + 1);
      AdvancingExit(x0, xs, k + 1);
    }
  }

  /**
   A trace whose every read improves on the last, shorter than the frame cap,
   is read to its end: the loop stops on the failed read after the last one,
   with the last position as the maximum.
   */
  lemma AdvancingRunsToFailedRead(x0: int, xs: seq<int>)
    requires Advancing(x0, xs) && |xs| < MaxFrames
    ensures LoopExit(x0, xs, 0) == Exit(|xs|, ReadFailed)
    ensures TrackAll(x0, xs, |xs|) == Tracker(if xs == [] then x0 else xs[|xs| - 1], 0)
  {
    AdvancingExit(x0, xs, 0);
    AdvancingTracker(x0, xs, |xs|);
  }
}
