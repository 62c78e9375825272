/**
 A one-dimensional grid of sample coordinates, and the uniform grid over an
 interval. Coordinates are exact reals: the laws proved here (the last point is
 the end of the interval, the spacing is constant) hold in exact arithmetic.
 */
module Grids {

  /** An ordered sequence of sample coordinates. */
  datatype Grid = Grid(points: seq<real>)

  /** The inputs for which a uniform grid collapses to the single point `startPoint`. */
  predicate Degenerate(startPoint: real, endPoint: real, numPoints: nat) {
    startPoint >= endPoint || numPoints <= 1
  }

  /** Distance between adjacent points of a uniform grid with `numPoints` points. */
  function Step(startPoint: real, endPoint: real, numPoints: nat): (h: real)
    requires numPoints >= 2
  {
    (endPoint - startPoint) / (numPoints as real - 1.0)
  }

  /**
   Every pair of adjacent coordinates of `s` is `h` apart. The pair `i, j`
   with `j == i + 1` gives the quantifier the trigger `s[i], s[j]`.
   */
  ghost predicate Spaced(s: seq<real>, h: real) {
    forall i, j :: 0 <= i < j < |s| && j == i + 1 ==> s[j] - s[i] == h
  }

  ghost predicate StrictlyIncreasing(s: seq<real>) {
    forall i, j :: 0 <= i < j < |s| ==> s[i] < s[j]
  }

  /**
   `numPoints` evenly spaced coordinates from `startPoint` to `endPoint`
   inclusive; degenerate inputs give the one-point grid at `startPoint`.
   */
  function NewUniformGrid(startPoint: real, endPoint: real, numPoints: nat): (g: Grid)
    ensures 1 <= |g.points| && g.points[0] == startPoint
    ensures Degenerate(startPoint, endPoint, numPoints) <==> g.points == [startPoint]
    ensures !Degenerate(startPoint, endPoint, numPoints) ==> |g.points| == numPoints
  {
    if Degenerate(startPoint, endPoint, numPoints) then
      Grid([startPoint])
    else
      var step := Step(startPoint, endPoint, numPoints);
      Grid(seq(numPoints, i => startPoint + i as real * step))
  }

  /** A sequence with constant spacing `h` is the arithmetic progression from its first element. */
  lemma {:induction false} SpacedIsArithmetic(s: seq<real>, h: real)
    requires Spaced(s, h)
    ensures forall k :: 0 <= k < |s| ==> s[k] == s[0] + k as real * h
  {
    if |s| > 1 {
      var t := s[..|s| - 1];
      assert Spaced(t, h) by {
        forall i, j | 0 <= i < j < |t| && j == i + 1 ensures t[j] - t[i] == h {
          assert t[i] == s[i] && t[j] == s[j];
        }
      }
      SpacedIsArithmetic(t, h);
      var n := |s| - 1;
      assert s[n] - s[n - 1] == h;
      assert s[n - 1] == s[0] + (n - 1) as real * h by { assert t[n - 1] == s[n - 1]; }
      forall k | 0 <= k < |s| ensures s[k] == s[0] + k as real * h {
        if k < n { assert t[k] == s[k]; }
      }
    }
  }

  /** Positive constant spacing makes a sequence strictly increasing. */
  lemma SpacedIncreasing(s: seq<real>, h: real)
    requires h > 0.0 && Spaced(s, h)
    ensures StrictlyIncreasing(s)
  {
    SpacedIsArithmetic(s, h);
    forall i, j | 0 <= i < j < |s| ensures s[i] < s[j] {
      assert s[j] - s[i] == (j - i) as real * h;
      assert (j - i) as real * h > 0.0;
    }
  }

  /** Adjacent points of a non-degenerate uniform grid are exactly one step apart. */
  lemma UniformGridSpacing(startPoint: real, endPoint: real, numPoints: nat)
    requires !Degenerate(startPoint, endPoint, numPoints)
    ensures Spaced(NewUniformGrid(startPoint, endPoint, numPoints).points, Step(startPoint, endPoint, numPoints))
  {
    var s := NewUniformGrid(startPoint, endPoint, numPoints).points;
    var h := Step(startPoint, endPoint, numPoints);
    forall i, j | 0 <= i < j < |s| && j == i + 1 ensures s[j] - s[i] == h {
      assert s[i] == startPoint + i as real * h;
      assert s[j] == startPoint + j as real * h;
      assert j as real * h == i as real * h + h;
    }
  }

  /** The last point of a non-degenerate uniform grid is `endPoint`: the interval is covered inclusively. */
  lemma UniformGridEndsAtEnd(startPoint: real, endPoint: real, numPoints: nat)
    requires !Degenerate(startPoint, endPoint, numPoints)
    ensures var s := NewUniformGrid(startPoint, endPoint, numPoints).points;
            s[|s| - 1] == endPoint
  {
    var s := NewUniformGrid(startPoint, endPoint, numPoints).points;
    var m := numPoints as real - 1.0;
    assert s[numPoints - 1] == startPoint + m * ((endPoint - startPoint) / m);
    assert m * ((endPoint - startPoint) / m) == endPoint - startPoint;
  }

  /** A non-degenerate uniform grid is strictly increasing; a degenerate one trivially is. */
  lemma UniformGridIncreasing(startPoint: real, endPoint: real, numPoints: nat)
    ensures StrictlyIncreasing(NewUniformGrid(startPoint, endPoint, numPoints).points)
  {
    if !Degenerate(startPoint, endPoint, numPoints) {
      var m := numPoints as real - 1.0;
      assert Step(startPoint, endPoint, numPoints) == (endPoint - startPoint) / m;
      assert Step(startPoint, endPoint, numPoints) > 0.0;
      UniformGridSpacing(startPoint, endPoint, numPoints);
      SpacedIncreasing(NewUniformGrid(startPoint, endPoint, numPoints).points, Step(startPoint, endPoint, numPoints));
    }
  }

  /**
   The uniform grid is the only grid of `numPoints` points from `startPoint`
   to `endPoint` with constant spacing.
   */
  lemma UniformGridIsUnique(startPoint: real, endPoint: real, numPoints: nat, s: seq<real>, h: real)
    requires !Degenerate(startPoint, endPoint, numPoints)
    requires |s| == numPoints && s[0] == startPoint && s[numPoints - 1] == endPoint
    requires Spaced(s, h)
    ensures s == NewUniformGrid(startPoint, endPoint, numPoints).points
  {
    var g := NewUniformGrid(startPoint, endPoint, numPoints).points;
    var m := numPoints as real - 1.0;
    SpacedIsArithmetic(s, h);
    assert m * h == endPoint - startPoint;
    assert h == Step(startPoint, endPoint, numPoints);
    forall k | 0 <= k < numPoints ensures s[k] == g[k] {
    }
  }
}
