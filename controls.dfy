/**
 The controller side of one frame: from an input vector to the button presses,
 through the phenotype's weight matrix and the logistic squashing.
 */
module Controls {

  /** The controller's button vocabulary. */
  datatype Button = B | Y | Select | Start | Up | Down | Left | Right | A | X | L | R

  /** Python's list.index: the first position of b. */
  function IndexOf(buttons: seq<Button>, b: Button): (i: nat)
    requires b in buttons
    ensures i < |buttons| && buttons[i] == b
    ensures forall j :: 0 <= j < i ==> buttons[j] != b
  {
    if buttons[0] == b then 0 else 1 + IndexOf(buttons[1..], b)
  }

  function Abs(x: real): real
  {
    if x < 0.0 then -x else x
  }

  /** Sum over the first |v| rows: v[0]*w[0,col] + ... + v[|v|-1]*w[|v|-1,col]. */
  function Dot(v: seq<real>, w: array2<real>, col: nat): real
    requires |v| <= w.Length0 && col < w.Length1
    reads w
  {
    if v == [] then 0.0 else Dot(v[..|v| - 1], w, col) + v[|v| - 1] * w[|v| - 1, col]
  }

  /** The raw activations of the first n output columns. */
  function Columns(v: seq<real>, w: array2<real>, n: nat): (raw: seq<real>)
    requires |v| <= w.Length0 && n <= w.Length1
    reads w
    ensures |raw| == n
  {
    if n == 0 then [] else Columns(v, w, n - 1) + [Dot(v, w, n - 1)]
  }

  /** numpy.dot(v, w): one raw activation per output column. */
  function Outputs(v: seq<real>, w: array2<real>): (raw: seq<real>)
    requires |v| == w.Length0
    reads w
    ensures |raw| == w.Length1
  {
    Columns(v, w, w.Length1)
  }

  /** Column i of the product is the dot product of v with column i of w. */
  lemma {:induction false} ColumnsAt(v: seq<real>, w: array2<real>, n: nat, i: nat)
    requires |v| <= w.Length0 && i < n <= w.Length1
    ensures Columns(v, w, n)[i] == Dot(v, w, i)
  {
    if i < n - 1 {
      ColumnsAt(v, w, n - 1, i);
    }
  }

  lemma OutputsAt(v: seq<real>, w: array2<real>)
    requires |v| == w.Length0
    ensures forall i :: 0 <= i < w.Length1 ==> Outputs(v, w)[i] == Dot(v, w, i)
  {
    forall i | 0 <= i < w.Length1
      ensures Outputs(v, w)[i] == Dot(v, w, i)
    {
      ColumnsAt(v, w, w.Length1, i);
    }
  }

  /** The squashing function applied element-wise to the raw activations. */
  function Squash(sig: real -> real, raw: seq<real>): (out: seq<real>)
    ensures |out| == |raw|
  {
    seq(|raw|, i requires 0 <= i < |raw| => sig(raw[i]))
  }

  /** The press pattern: button i is pressed when its squashed output exceeds 0.5. */
  function Threshold(outputs: seq<real>): (pressed: seq<bool>)
    ensures |pressed| == |outputs|
  {
    seq(|outputs|, i requires 0 <= i < |outputs| => outputs[i] > 0.5)
  }

  /** The per-button loop that turns squashed outputs into presses. */
  method DecideButtons(outputs: seq<real>) returns (pressed: seq<bool>)
    ensures |pressed| == |outputs|
    ensures forall i :: 0 <= i < |outputs| ==> (pressed[i] <==> outputs[i] > 0.5)
  {
    pressed := [];
    for i := 0 to |outputs|
      invariant |pressed| == i
      invariant forall k :: 0 <= k < i ==> (pressed[k] <==> outputs[k] > 0.5)
    {
      var isPressed := outputs[i] > 0.5;
      pressed := pressed + [isPressed];
    }
  }

  /** What the evaluators rely on of the logistic 1/(1+exp(-x)). */
  ghost predicate LogisticLike(sig: real -> real)
  {
    && sig(0.0) == 0.5
    && (forall a: real, b: real :: a < b ==> sig(a) < sig(b))
    && (forall a: real :: sig(a) > 0.0)
  }

  /** Under a logistic-like squashing, a button is pressed exactly when its raw activation is positive. */
  lemma PressedIffPositive(sig: real -> real, raw: seq<real>)
    requires LogisticLike(sig)
    ensures forall i :: 0 <= i < |raw| ==> (Threshold(Squash(sig, raw))[i] <==> raw[i] > 0.0)
  {
    forall i | 0 <= i < |raw|
      ensures Threshold(Squash(sig, raw))[i] <==> raw[i] > 0.0
    {
      if raw[i] > 0.0 {
        assert sig(0.0) < sig(raw[i]);
      } else if raw[i] < 0.0 {
        assert sig(raw[i]) < sig(0.0);
      }
    }
  }

  /** Under a logistic-like squashing, comparing squashed magnitudes compares raw activations. */
  lemma MagnitudeOrderIsRawOrder(sig: real -> real, a: real, b: real)
    requires LogisticLike(sig)
    ensures Abs(sig(a)) > Abs(sig(b)) <==> a > b
  {
    assert sig(a) > 0.0 && sig(b) > 0.0;
    if a > b {
      assert sig(b) < sig(a);
    } else if a < b {
      assert sig(a) < sig(b);
    }
  }
}
