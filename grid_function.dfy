/**
 Functions sampled on a grid, and the forward- and central-difference
 approximations of their first derivative.
 */
module GridFunctions {
  import opened Grids

  /** A function sampled on `grid`: `values[i]` is its value at `grid.points[i]`. */
  datatype GridFunction = GridFunction(grid: Grid, values: seq<real>) {
    /** One value per grid point. */
    predicate Valid() {
      |values| == |grid.points|
    }
  }

  /** The values of `f` at `points`, in order. */
  function Sample(points: seq<real>, f: real -> real): (vs: seq<real>)
    ensures |vs| == |points|
    ensures forall i :: 0 <= i < |points| ==> vs[i] == f(points[i])
  {
    if points == [] then [] else [f(points[0])] + Sample(points[1..], f)
  }

  /** Samples `f` once at every point of `grid`, keeping the grid. */
  function NewGridFunction(grid: Grid, f: real -> real): (r: GridFunction)
    ensures r.grid == grid && r.Valid()
    ensures forall i :: 0 <= i < |grid.points| ==> r.values[i] == f(grid.points[i])
  {
    GridFunction(grid, Sample(grid.points, f))
  }

  /**
   No two adjacent coordinates coincide: every one-sided difference quotient is
   defined. As in `Spaced`, the pair `i, j` gives the trigger `x[i], x[j]`.
   */
  ghost predicate AdjacentDistinct(x: seq<real>) {
    forall i, j :: 0 <= i < j < |x| && j == i + 1 ==> x[i] != x[j]
  }

  /** No two coordinates two apart coincide: every central difference quotient is defined. */
  ghost predicate AlternateDistinct(x: seq<real>) {
    forall i, j :: 0 <= i < j < |x| && j == i + 2 ==> x[i] != x[j]
  }

  /**
   What the forward operator demands: at least two points, a value for each,
   and no two adjacent points equal, since it divides by every adjacent gap.
   */
  ghost predicate Differentiable(gf: GridFunction) {
    2 <= |gf.grid.points| <= |gf.values| && AdjacentDistinct(gf.grid.points)
  }

  /**
   What the central operator demands: at least two points, a value for each,
   distinct first and last gaps (its one-sided end stencils) and distinct
   points two apart (its interior stencil). It never divides by an interior
   adjacent gap.
   */
  ghost predicate CentrallyDifferentiable(gf: GridFunction) {
    var x := gf.grid.points;
    2 <= |x| <= |gf.values| && x[0] != x[1] && x[|x| - 2] != x[|x| - 1] && AlternateDistinct(x)
  }

  /** The slope of the chord between grid points `i` and `j`. */
  function Slope(x: seq<real>, v: seq<real>, i: nat, j: nat): (s: real)
    requires i < |x| && j < |x| && i < |v| && j < |v| && x[i] != x[j]
  {
    (v[j] - v[i]) / (x[j] - x[i])
  }

  /**
   The forward-difference derivative: the slope towards the next point at
   every point but the last, and the slope from the previous point at the last.
   */
  ghost function ForwardDifference(gf: GridFunction): (r: GridFunction)
    requires Differentiable(gf)
    ensures r.grid == gf.grid && r.Valid()
  {
    var x, v, n := gf.grid.points, gf.values, |gf.grid.points|;
    GridFunction(gf.grid, seq(n, i requires 0 <= i < n =>
      if i < n - 1 then Slope(x, v, i, i + 1) else Slope(x, v, n - 2, n - 1)))
  }

  /**
   The central-difference derivative: the slope between the two neighbours at
   every interior point, and the one-sided slopes at the two ends.
   */
  ghost function CentralDifference(gf: GridFunction): (r: GridFunction)
    requires CentrallyDifferentiable(gf)
    ensures r.grid == gf.grid && r.Valid()
  {
    var x, v, n := gf.grid.points, gf.values, |gf.grid.points|;
    GridFunction(gf.grid, seq(n, i requires 0 <= i < n =>
      if i == 0 then Slope(x, v, 0, 1)
      else if i < n - 1 then Slope(x, v, i - 1, i + 1)
      else Slope(x, v, n - 2, n - 1)))
  }

  /** Forward differences: one push for the start, one per interior point, one for the end. */
  method ForwardDifferenceDerivative(gf: GridFunction) returns (r: GridFunction)
    requires Differentiable(gf)
    ensures r == ForwardDifference(gf)
  {
    var x, v := gf.grid.points, gf.values;
    var n := |x|;
    var d := [(v[1] - v[0]) / (x[1] - x[0])];
    for i := 1 to n - 1
      invariant |d| == i
      invariant forall k :: 0 <= k < i ==> d[k] == Slope(x, v, k, k + 1)
    {
      d := d + [(v[i + 1] - v[i]) / (x[i + 1] - x[i])];
    }
    d := d + [(v[n - 1] - v[n - 2]) / (x[n - 1] - x[n - 2])];
    forall k | 0 <= k < n ensures d[k] == ForwardDifference(gf).values[k] {
      if k == n - 1 { assert d[k] == Slope(x, v, n - 2, n - 1); }
    }
    r := GridFunction(gf.grid, d);
  }

  /** Central differences: forward stencil at the start, central inside, backward at the end. */
  method CentralDifferenceDerivative(gf: GridFunction) returns (r: GridFunction)
    requires CentrallyDifferentiable(gf)
    ensures r == CentralDifference(gf)
  {
    var x, v := gf.grid.points, gf.values;
    var n := |x|;
    var d := [(v[1] - v[0]) / (x[1] - x[0])];
    for i := 1 to n - 1
      invariant |d| == i && d[0] == Slope(x, v, 0, 1)
      invariant forall k :: 1 <= k < i ==> d[k] == Slope(x, v, k - 1, k + 1)
    {
      d := d + [(v[i + 1] - v[i - 1]) / (x[i + 1] - x[i - 1])];
    }
    d := d + [(v[n - 1] - v[n - 2]) / (x[n - 1] - x[n - 2])];
    forall k | 0 <= k < n ensures d[k] == CentralDifference(gf).values[k] {
      if k == n - 1 { assert d[k] == Slope(x, v, n - 2, n - 1); }
    }
    r := GridFunction(gf.grid, d);
  }

  // ---------------------------------------------------------------------
  // Laws of the two difference operators

  /** A strictly increasing grid meets the distinctness both operators need. */
  lemma IncreasingIsDistinct(x: seq<real>)
    requires StrictlyIncreasing(x)
    ensures AdjacentDistinct(x) && AlternateDistinct(x)
  {
  }

  /** Any function sampled on a uniform grid of at least two points can be differenced by both operators. */
  lemma UniformGridDifferentiable(startPoint: real, endPoint: real, numPoints: nat, f: real -> real)
    requires !Degenerate(startPoint, endPoint, numPoints)
    ensures var gf := NewGridFunction(NewUniformGrid(startPoint, endPoint, numPoints), f);
            Differentiable(gf) && CentrallyDifferentiable(gf)
  {
    UniformGridIncreasing(startPoint, endPoint, numPoints);
    IncreasingIsDistinct(NewUniformGrid(startPoint, endPoint, numPoints).points);
  }

  /** The forward operator has no forward neighbour at the last point, so it repeats the last chord there. */
  lemma ForwardEndRepeats(gf: GridFunction)
    requires Differentiable(gf)
    ensures var d, n := ForwardDifference(gf).values, |gf.grid.points|;
            d[n - 1] == d[n - 2] == Slope(gf.grid.points, gf.values, n - 2, n - 1)
  {
  }

  /** Both operators use the same one-sided stencils at the two ends of the grid. */
  lemma EndsAgree(gf: GridFunction)
    requires Differentiable(gf) && CentrallyDifferentiable(gf)
    ensures var f, c, n := ForwardDifference(gf).values, CentralDifference(gf).values, |gf.grid.points|;
            c[0] == f[0] && c[n - 1] == f[n - 1]
  {
  }

  /** On a two-point grid there is no interior: both operators give the single chord slope twice. */
  lemma TwoPointOperatorsAgree(gf: GridFunction)
    requires Differentiable(gf) && |gf.grid.points| == 2
    ensures var x, v := gf.grid.points, gf.values;
            var s := (v[1] - v[0]) / (x[1] - x[0]);
            CentrallyDifferentiable(gf) && ForwardDifference(gf).values == CentralDifference(gf).values == [s, s]
  {
  }

  /**
   The central operator accepts a grid with a repeated interior point, which
   the forward operator rejects: on [0, 1, 1, 2] every central stencil is
   defined, but the forward stencil at index 1 divides by zero.
   */
  lemma RepeatedInteriorPoint()
    ensures var gf := GridFunction(Grid([0.0, 1.0, 1.0, 2.0]), [0.0, 1.0, 2.0, 3.0]);
            CentrallyDifferentiable(gf) && !Differentiable(gf) &&
            CentralDifference(gf).values == [1.0, 2.0, 2.0, 1.0]
  {
    var gf := GridFunction(Grid([0.0, 1.0, 1.0, 2.0]), [0.0, 1.0, 2.0, 3.0]);
    var x := gf.grid.points;
    assert x[1] == x[2];
    var v, c := gf.values, CentralDifference(gf).values;
    assert c[0] == Slope(x, v, 0, 1) == 1.0;
    assert c[1] == Slope(x, v, 0, 2) == 2.0;
    assert c[2] == Slope(x, v, 1, 3) == 2.0;
    assert c[3] == Slope(x, v, 2, 3) == 1.0;
  }

  /** A chord of a straight line has the line's slope. */
  lemma SlopeOfLine(x: seq<real>, v: seq<real>, i: nat, j: nat, a: real, b: real)
    requires i < |x| && j < |x| && i < |v| && j < |v| && x[i] != x[j]
    requires v[i] == a * x[i] + b && v[j] == a * x[j] + b
    ensures Slope(x, v, i, j) == a
  {
    assert v[j] - v[i] == a * (x[j] - x[i]);
  }

  /** The forward operator is exact on straight lines: differencing `a*x + b` gives `a` at every point. */
  lemma ForwardExactOnLines(gf: GridFunction, a: real, b: real)
    requires Differentiable(gf)
    requires forall i :: 0 <= i < |gf.grid.points| ==> gf.values[i] == a * gf.grid.points[i] + b
    ensures forall i :: 0 <= i < |gf.grid.points| ==> ForwardDifference(gf).values[i] == a
  {
    var x, v, n := gf.grid.points, gf.values, |gf.grid.points|;
    var d := ForwardDifference(gf).values;
    forall i | 0 <= i < n ensures d[i] == a {
      if i < n - 1 { SlopeOfLine(x, v, i, i + 1, a, b); } else { SlopeOfLine(x, v, n - 2, n - 1, a, b); }
    }
  }

  /** The central operator is exact on straight lines: differencing `a*x + b` gives `a` at every point. */
  lemma CentralExactOnLines(gf: GridFunction, a: real, b: real)
    requires CentrallyDifferentiable(gf)
    requires forall i :: 0 <= i < |gf.grid.points| ==> gf.values[i] == a * gf.grid.points[i] + b
    ensures forall i :: 0 <= i < |gf.grid.points| ==> CentralDifference(gf).values[i] == a
  {
    var x, v, n := gf.grid.points, gf.values, |gf.grid.points|;
    var d := CentralDifference(gf).values;
    forall i | 0 <= i < n ensures d[i] == a {
      if i == 0 {
        SlopeOfLine(x, v, 0, 1, a, b);
      } else if i < n - 1 {
        SlopeOfLine(x, v, i - 1, i + 1, a, b);
      } else {
        SlopeOfLine(x, v, n - 2, n - 1, a, b);
      }
    }
  }

  /** Differencing a constant function gives zero everywhere, under both operators. */
  lemma ConstantHasZeroDerivative(gf: GridFunction, c: real)
    requires |gf.grid.points| <= |gf.values|
    requires forall i :: 0 <= i < |gf.grid.points| ==> gf.values[i] == c
    ensures Differentiable(gf) ==>
              forall i :: 0 <= i < |gf.grid.points| ==> ForwardDifference(gf).values[i] == 0.0
    ensures CentrallyDifferentiable(gf) ==>
              forall i :: 0 <= i < |gf.grid.points| ==> CentralDifference(gf).values[i] == 0.0
  {
    if Differentiable(gf) { ForwardExactOnLines(gf, 0.0, c); }
    if CentrallyDifferentiable(gf) { CentralExactOnLines(gf, 0.0, c); }
  }

  function Square(x: real): (y: real) {
    x * x
  }

  /** A chord of the parabola `x*x` between `x[i]` and `x[j]` has slope `x[i] + x[j]`. */
  lemma SlopeOfSquare(x: seq<real>, v: seq<real>, i: nat, j: nat)
    requires i < |x| && j < |x| && i < |v| && j < |v| && x[i] != x[j]
    requires v[i] == Square(x[i]) && v[j] == Square(x[j])
    ensures Slope(x, v, i, j) == x[i] + x[j]
  {
    assert v[j] - v[i] == (x[j] - x[i]) * (x[i] + x[j]);
  }

  /** On `x*x` the forward operator gives `x[i] + x[i+1]`: it is off by one step from `2*x[i]`. */
  lemma ForwardOnSquares(gf: GridFunction)
    requires Differentiable(gf)
    requires forall i :: 0 <= i < |gf.grid.points| ==> gf.values[i] == Square(gf.grid.points[i])
    ensures var x := gf.grid.points;
            forall i :: 0 <= i < |x| - 1 ==> ForwardDifference(gf).values[i] == x[i] + x[i + 1]
  {
    var x, v := gf.grid.points, gf.values;
    forall i | 0 <= i < |x| - 1 ensures ForwardDifference(gf).values[i] == x[i] + x[i + 1] {
      SlopeOfSquare(x, v, i, i + 1);
    }
  }

  /** On a grid with constant spacing the central operator is exact for `x*x` at every interior point. */
  lemma CentralExactOnSquares(gf: GridFunction, h: real)
    requires CentrallyDifferentiable(gf) && Spaced(gf.grid.points, h)
    requires forall i :: 0 <= i < |gf.grid.points| ==> gf.values[i] == Square(gf.grid.points[i])
    ensures var x := gf.grid.points;
            forall i :: 0 < i < |x| - 1 ==> CentralDifference(gf).values[i] == 2.0 * x[i]
  {
    var x, v := gf.grid.points, gf.values;
    forall i | 0 < i < |x| - 1 ensures CentralDifference(gf).values[i] == 2.0 * x[i] {
      SlopeOfSquare(x, v, i - 1, i + 1);
      assert x[i] - x[i - 1] == h && x[i + 1] - x[i] == h;
    }
  }

  /** Over two equal steps `h`, the overall slope is the mean of the two step slopes. */
  lemma MeanOfSlopes(a: real, b: real, c: real, h: real)
    requires h != 0.0
    ensures (c - a) / (2.0 * h) == ((b - a) / h + (c - b) / h) / 2.0
  {
    var p, q := (b - a) / h, (c - b) / h;
    assert p * h == b - a && q * h == c - b;
    assert (p + q) / 2.0 * (2.0 * h) == c - a;
  }

  /** On a grid with constant spacing each interior central difference is the mean of the two forward differences around it. */
  lemma CentralIsMeanOfForward(gf: GridFunction, h: real)
    requires Differentiable(gf) && CentrallyDifferentiable(gf) && Spaced(gf.grid.points, h)
    ensures var f, c, n := ForwardDifference(gf).values, CentralDifference(gf).values, |gf.grid.points|;
            forall i :: 0 < i < n - 1 ==> c[i] == (f[i - 1] + f[i]) / 2.0
  {
    var x, v, n := gf.grid.points, gf.values, |gf.grid.points|;
    var f, c := ForwardDifference(gf).values, CentralDifference(gf).values;
    forall i | 0 < i < n - 1 ensures c[i] == (f[i - 1] + f[i]) / 2.0 {
      assert x[i] - x[i - 1] == h && x[i + 1] - x[i] == h;
      assert h != 0.0;
      assert f[i - 1] == (v[i] - v[i - 1]) / h by { assert f[i - 1] == Slope(x, v, i - 1, i); }
      assert f[i] == (v[i + 1] - v[i]) / h by { assert f[i] == Slope(x, v, i, i + 1); }
      assert c[i] == (v[i + 1] - v[i - 1]) / (2.0 * h) by {
        assert c[i] == Slope(x, v, i - 1, i + 1);
        assert x[i + 1] - x[i - 1] == 2.0 * h;
      }
      MeanOfSlopes(v[i - 1], v[i], v[i + 1], h);
    }
  }

  /** Sampling `x*x` on any uniform grid: central differences give `2*x` at every interior point. */
  lemma UniformGridCentralExact(startPoint: real, endPoint: real, numPoints: nat)
    requires !Degenerate(startPoint, endPoint, numPoints)
    ensures var gf := NewGridFunction(NewUniformGrid(startPoint, endPoint, numPoints), Square);
            var x := gf.grid.points;
            CentrallyDifferentiable(gf) &&
            forall i :: 0 < i < |x| - 1 ==> CentralDifference(gf).values[i] == 2.0 * x[i]
  {
    var gf := NewGridFunction(NewUniformGrid(startPoint, endPoint, numPoints), Square);
    UniformGridDifferentiable(startPoint, endPoint, numPoints, Square);
    UniformGridSpacing(startPoint, endPoint, numPoints);
    CentralExactOnSquares(gf, Step(startPoint, endPoint, numPoints));
  }

  /** `x*x` on eleven points over [0, 10]: at x = 5 forward differences give 11, central differences 10. */
  lemma SquareOnZeroToTen()
    ensures var gf := NewGridFunction(NewUniformGrid(0.0, 10.0, 11), Square);
            Differentiable(gf) && CentrallyDifferentiable(gf) &&
            gf.grid.points[5] == 5.0 &&
            ForwardDifference(gf).values[5] == 11.0 && CentralDifference(gf).values[5] == 10.0
  {
    var g := NewUniformGrid(0.0, 10.0, 11);
    var gf := NewGridFunction(g, Square);
    var x := gf.grid.points;
    UniformGridDifferentiable(0.0, 10.0, 11, Square);
    assert Step(0.0, 10.0, 11) == 1.0;
    UniformGridSpacing(0.0, 10.0, 11);
    assert x == g.points && x[0] == 0.0;
    SpacedIsArithmetic(x, 1.0);
    assert x[4] == x[0] + 4 as real * 1.0;
    assert x[5] == x[0] + 5 as real * 1.0;
    assert x[6] == x[0] + 6 as real * 1.0;
    ForwardOnSquares(gf);
    UniformGridCentralExact(0.0, 10.0, 11);
  }
}
