/**
 Substrate geometry shared by both evaluator variants: the coordinates the
 CPPN is queried at, and the compilation of a CPPN into a dense weight matrix.
 Coordinates are exact reals; the floating-point rounding of numpy is not modelled.
 */
module Geometry {

  /** A point of the substrate plane. */
  datatype Coord = Coord(x: real, y: real)

  /** The CPPN queried as cppn.activate([x1, y1, x2, y2])[0]. */
  type Cppn = (real, real, real, real) -> real

  /** Position i of n points spread evenly from -1 to 1: -1 + 2i/(n-1). */
  function EvenlySpaced(n: nat, i: nat): (x: real)
    requires 2 <= n && i < n
    ensures -1.0 <= x <= 1.0
    ensures x == -1.0 <==> i == 0
    ensures x == 1.0 <==> i == n - 1
  {
    var d := (n - 1) as real;
    var t := (i as real) / d;
    assert 0.0 <= t <= 1.0 by {
      assert i as real <= d;
    }
    assert t == 1.0 ==> i as real == d;
    assert i == n - 1 ==> t == 1.0 by {
      if i == n - 1 {
        assert i as real == d && d > 0.0;
        assert d / d == 1.0;
      }
    }
    -1.0 + 2.0 * t
  }

  lemma EvenlySpacedIncreasing(n: nat, i: nat, j: nat)
    requires 2 <= n && i < j < n
    ensures EvenlySpaced(n, i) < EvenlySpaced(n, j)
  {
    var d := (n - 1) as real;
    assert (i as real) / d < (j as real) / d by {
      assert (j as real) / d - (i as real) / d == (j - i) as real / d;
    }
  }

  /** Element i of numpy.linspace(-1, 1, num); a single point is -1. */
  function Linspace(num: nat, i: nat): (x: real)
    requires i < num
    ensures -1.0 <= x <= 1.0
    ensures i == 0 ==> x == -1.0
    ensures 1 < num && i == num - 1 ==> x == 1.0
  {
    if num == 1 then -1.0 else EvenlySpaced(num, i)
  }

  lemma LinspaceIncreasing(num: nat, i: nat, j: nat)
    requires i < j < num
    ensures Linspace(num, i) < Linspace(num, j)
  {
    EvenlySpacedIncreasing(num, i, j);
  }

  /** Row r of the pixel grid, left to right. */
  function GridRow(width: nat, height: nat, r: nat): (row: seq<Coord>)
    requires r < height
    ensures |row| == width
  {
    seq(width, c requires 0 <= c < width => Coord(Linspace(width, c), Linspace(height, r)))
  }

  /** The first `rows` rows of the flattened numpy.meshgrid of two linspaces, row after row. */
  function GridRows(width: nat, height: nat, rows: nat): (g: seq<Coord>)
    requires rows <= height
    ensures |g| == rows * width
  {
    if rows == 0 then []
    else
      var g := GridRows(width, height, rows - 1);
      assert |g| + width == rows * width;
      g + GridRow(width, height, rows - 1)
  }

  /** One coordinate per pixel of a width x height screen, in row-major order. */
  function MeshGrid(width: nat, height: nat): (g: seq<Coord>)
  {
    GridRows(width, height, height)
  }

  lemma MulStrict(a: nat, b: nat, w: nat, c: nat)
    requires a < b && c < w
    ensures a * w + c < b * w
  {
    var k := b - a - 1;
    assert k * w >= 0;
    assert b * w == a * w + w + k * w;
  }

  /** Pixel (row r, column c) sits at index r*width + c, at (x_range[c], y_range[r]). */
  lemma {:induction false} GridRowsAt(width: nat, height: nat, rows: nat, r: nat, c: nat)
    requires r < rows <= height && c < width
    ensures r * width + c < |GridRows(width, height, rows)|
    ensures GridRows(width, height, rows)[r * width + c] == Coord(Linspace(width, c), Linspace(height, r))
  {
    MulStrict(r, rows, width, c);
    var g := GridRows(width, height, rows - 1);
    assert GridRows(width, height, rows) == g + GridRow(width, height, rows - 1);
    if r == rows - 1 {
      assert |g| == r * width;
    } else {
      GridRowsAt(width, height, rows - 1, r, c);
    }
  }

  lemma MeshGridAt(width: nat, height: nat, r: nat, c: nat)
    requires r < height && c < width
    ensures |MeshGrid(width, height)| == width * height
    ensures MeshGrid(width, height)[r * width + c] == Coord(Linspace(width, c), Linspace(height, r))
  {
    GridRowsAt(width, height, height, r, c);
  }

  /** Every grid point lies in the square [-1, 1] x [-1, 1]. */
  lemma {:induction false} GridRowsBounds(width: nat, height: nat, rows: nat)
    requires rows <= height
    ensures forall j :: 0 <= j < |GridRows(width, height, rows)| ==>
              -1.0 <= GridRows(width, height, rows)[j].x <= 1.0 &&
              -1.0 <= GridRows(width, height, rows)[j].y <= 1.0
  {
    if rows > 0 {
      GridRowsBounds(width, height, rows - 1);
      var g := GridRows(width, height, rows - 1);
      var row := GridRow(width, height, rows - 1);
      var all: seq<Coord> := g + row;
      assert GridRows(width, height, rows) == all;
      forall j | 0 <= j < |all|
        ensures -1.0 <= all[j].x <= 1.0 && -1.0 <= all[j].y <= 1.0
      {
        if j >= |g| {
          assert all[j] == row[j - |g|];
        }
      }
    }
  }

  lemma MeshGridBounds(width: nat, height: nat)
    ensures forall j :: 0 <= j < |MeshGrid(width, height)| ==>
              -1.0 <= MeshGrid(width, height)[j].x <= 1.0 && -1.0 <= MeshGrid(width, height)[j].y <= 1.0
  {
    GridRowsBounds(width, height, height);
  }

  /**
   The button coordinates laid out by an append loop: n points with
   x = -1 + 2i/(n-1) at height y. A single button divides by zero in the source.
   */
  method ButtonRow(n: nat, y: real) returns (coords: seq<Coord>)
    requires n != 1
    ensures |coords| == n
    ensures forall i :: 0 <= i < n ==> coords[i] == Coord(EvenlySpaced(n, i), y)
  {
    coords := [];
    for i := 0 to n
      invariant |coords| == i
      invariant forall k :: 0 <= k < i ==> coords[k] == Coord(EvenlySpaced(n, k), y)
    {
      var x := -1.0 + (2.0 * (i as real) / ((n - 1) as real));
      coords := coords + [Coord(x, y)];
    }
  }

  /** The weight the CPPN assigns to the connection from `input` to `output`. */
  function Query(cppn: Cppn, input: Coord, output: Coord): real
  {
    cppn(input.x, input.y, output.x, output.y)
  }

  /**
   Fills a zeroed |inputs| x |outputs| matrix column by column, querying the
   CPPN once per (input, output) pair.
   */
  method Compile(inputs: seq<Coord>, outputs: seq<Coord>, cppn: Cppn) returns (weights: array2<real>)
    ensures fresh(weights)
    ensures weights.Length0 == |inputs| && weights.Length1 == |outputs|
    ensures forall j, i :: 0 <= j < |inputs| && 0 <= i < |outputs| ==>
              weights[j, i] == Query(cppn, inputs[j], outputs[i])
  {
    weights := new real[|inputs|, |outputs|]((_, _) => 0.0);
    for i := 0 to |outputs|
      invariant forall j, i' :: 0 <= j < |inputs| && 0 <= i' < i ==>
                  weights[j, i'] == Query(cppn, inputs[j], outputs[i'])
    {
      var out := outputs[i];
      for j := 0 to |inputs|
        invariant forall j', i' :: 0 <= j' < |inputs| && 0 <= i' < i ==>
                    weights[j', i'] == Query(cppn, inputs[j'], outputs[i'])
        invariant forall j' :: 0 <= j' < j ==> weights[j', i] == Query(cppn, inputs[j'], out)
      {
        var inp := inputs[j];
        weights[j, i] := cppn(inp.x, inp.y, out.x, out.y);
      }
    }
  }
}
