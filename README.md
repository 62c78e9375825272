# Uniform grids and finite-difference derivatives

A Dafny model of the numerical core of a small Rust program for two-point
boundary value problems. It covers two pieces.

- **Grid construction** (`src/grid.rs`): a `Grid` is a sequence of coordinates.
  `new_uniform_grid(start, end, n)` gives `n` evenly spaced points from
  `start` to `end` inclusive. When `start >= end` or `n <= 1` it gives the
  one-point grid `[start]` instead of failing.
- **Grid functions** (`src/grid_function.rs`): a `GridFunction` pairs a grid
  with one value per point. `new_grid_function` samples a function at every
  point. Two operators approximate the first derivative:
  - `forward_difference_derivative` uses the forward chord at every point and
    repeats the backward chord at the last point;
  - `central_difference_derivative` uses the chord between the two neighbours
    at interior points and one-sided chords at both ends.

Files:

- `grid.dfy` (module `Grids`): the `Grid` datatype and `NewUniformGrid`, a pure
  function, as in the source. Lemmas state that every uniform grid is strictly
  increasing. In the non-degenerate case they also state that the grid ends at
  `endPoint` and that its spacing is constant. Finally, it is the only
  constant-spacing grid of `numPoints` points with those endpoints.
- `grid_function.dfy` (module `GridFunctions`): the `GridFunction` datatype,
  sampling as a recursive map, and the two derivative operators. Each operator
  is an imperative method that appends to a result sequence, as the source
  pushes onto a `Vec`. Each method is proved equal to a specification function
  (`ForwardDifference`, `CentralDifference`) that gives the stencil used at
  each index. The laws are lemmas about those functions: end-point stencils,
  agreement on two-point grids, exactness on constants and straight lines, and
  exactness of the central operator on `x*x` over uniform grids.

`f64` is modelled as `real` and `usize` as `nat`. The laws therefore hold in
exact arithmetic, not under IEEE-754 rounding.

The operators' preconditions state what the code's indexing and divisions
need:

- Both operators read `points[1]` and `values[1]`, so the code panics on a grid
  of fewer than two points. The model makes `n >= 2` a precondition of both.
- Both read only the first `n` values, so the value sequence must be at least
  as long as the grid. The code's `GridFunction` has public fields and does not
  enforce equal lengths.
- The forward operator divides by every adjacent gap. `Differentiable`
  therefore also requires adjacent points to be distinct (`AdjacentDistinct`).
- The central operator divides by the first gap, the last gap and every gap
  between points two apart. It never divides by an interior adjacent gap.
  `CentrallyDifferentiable` requires exactly those three things, so the central
  operator accepts grids that the forward operator rejects (`RepeatedInteriorPoint`).

`IncreasingIsDistinct` shows that a strictly increasing grid meets both
operators' distinctness requirements; with at least two points and a value
per point it meets their whole preconditions. `UniformGridDifferentiable`
shows that any function sampled on a non-degenerate uniform grid meets both
preconditions. A one-point grid, degenerate or not, meets neither.

## Model

The table lists the operations and the lemmas about them. Helper definitions
are not listed: the `Grid` datatype (`src/grid.rs:5-7`), the `GridFunction`
datatype (`src/grid_function.rs:7-10`), `Step` (the `step_size` of
`src/grid.rs:38`), `Degenerate` (the test of `src/grid.rs:32`), `Slope`, and
the chord helpers `SlopeOfLine`, `SlopeOfSquare` and `MeanOfSlopes`.

| member | source | states |
|---|---|---|
| Grids.NewUniformGrid | src/grid.rs:26-46 | the grid is never empty and starts at `startPoint`; it is exactly `[startPoint]` if and only if `startPoint >= endPoint` or `numPoints <= 1`; otherwise it has exactly `numPoints` points |
| Grids.UniformGridSpacing | src/grid.rs:38-43 | in the non-degenerate case adjacent points differ by exactly `(end - start)/(n - 1)` |
| Grids.UniformGridEndsAtEnd | src/grid.rs:38-43 | in the non-degenerate case the last point is exactly `endPoint`, so the grid covers the interval inclusively (the promise of line 17) |
| Grids.UniformGridIncreasing | src/grid.rs:32-43 | every uniform grid is strictly increasing, since the step is positive whenever `start < end` |
| Grids.UniformGridIsUnique | src/grid.rs:38-43 | any sequence of `numPoints` points from `startPoint` to `endPoint` with constant spacing equals the uniform grid |
| Grids.SpacedIsArithmetic | src/grid.rs:41-43 | a sequence with constant spacing `h` has `s[k] == s[0] + k*h` at every index, which is the shape of the points the grid builds |
| GridFunctions.Sample | src/grid_function.rs:33-34 | the mapped sequence has one value per point, and value `i` is `f` at point `i` |
| GridFunctions.NewGridFunction | src/grid_function.rs:28-40 | the grid is kept unchanged, there is one value per grid point, and value `i` is `f(points[i])` |
| GridFunctions.ForwardDifference | src/grid_function.rs:63-88 | the forward derivative is on the same grid with exactly one value per grid point |
| GridFunctions.CentralDifference | src/grid_function.rs:114-139 | the central derivative is on the same grid with exactly one value per grid point |
| GridFunctions.ForwardDifferenceDerivative | src/grid_function.rs:56-89 | for `n >= 2` points with distinct neighbours, the pushed values are the forward chord slopes at `0..n-2` followed by the backward chord at `n-1`, on the same grid |
| GridFunctions.CentralDifferenceDerivative | src/grid_function.rs:107-140 | for `n >= 2` points whose first gap, last gap and gaps across two points are non-zero, the pushed values are the forward chord at 0, the chord between the neighbours at `1..n-2`, and the backward chord at `n-1`, on the same grid |
| GridFunctions.ForwardEndRepeats | src/grid_function.rs:80-83 | the forward derivative's last value equals its second-to-last value, namely the backward chord slope |
| GridFunctions.EndsAgree | src/grid_function.rs:117-134 | the central and forward operators agree at the first and the last point |
| GridFunctions.TwoPointOperatorsAgree | src/grid_function.rs:66-83 | on a two-point grid the central operator's precondition follows from the forward one's, the loop is empty, and both operators give `[(v1-v0)/(x1-x0), (v1-v0)/(x1-x0)]` |
| GridFunctions.ForwardExactOnLines | src/grid_function.rs:66-83 | differencing values `a*x + b` with the forward operator gives exactly `a` at every point |
| GridFunctions.CentralExactOnLines | src/grid_function.rs:117-134 | differencing values `a*x + b` with the central operator gives exactly `a` at every point |
| GridFunctions.ConstantHasZeroDerivative | src/grid_function.rs:117-134 | differencing a constant gives zero at every point, under each operator whose precondition the grid meets |
| GridFunctions.RepeatedInteriorPoint | src/grid_function.rs:117-134 | the grid `[0, 1, 1, 2]` meets the central operator's precondition but not the forward operator's, and central differencing of `[0, 1, 2, 3]` on it gives `[1, 2, 2, 1]` |
| GridFunctions.ForwardOnSquares | src/grid_function.rs:72-77 | on values `x*x` the forward difference at `i < n-1` is `x[i] + x[i+1]` |
| GridFunctions.CentralExactOnSquares | src/grid_function.rs:123-128 | on a grid with constant spacing and values `x*x`, the central difference is `2*x[i]` at every interior point |
| GridFunctions.CentralIsMeanOfForward | src/grid_function.rs:123-128 | on a grid with constant spacing each interior central difference is the mean of the forward differences at `i-1` and `i` |
| GridFunctions.UniformGridDifferentiable | src/grid_function.rs:66-69 | any function sampled on a non-degenerate uniform grid meets both operators' preconditions |
| GridFunctions.UniformGridCentralExact | src/grid_function.rs:123-128 | `x*x` sampled on any non-degenerate uniform grid has central difference `2*x[i]` at every interior point |
| GridFunctions.SquareOnZeroToTen | src/grid_function.rs:72-77 | `x*x` on 11 points over `[0, 10]`: at `x = 5` the forward difference is 11 and the central difference is 10 |

## Left out

- Newton boundary-value solver, Dirichlet boundary conditions and `grid_function_addition`: they are called from `src/main.rs`, but their code is not part of this model, so their behaviour cannot be stated.
- `src/main.rs`: example wiring, the `sin` and `x(π - x)` test functions, the constant `PI`, and the formatted printing of results.
- IEEE-754 rounding, NaN and infinity. Exact reals stand in for `f64`. Endpoint equality and constant spacing hold only in exact arithmetic.
- The panic on a grid of fewer than two points: both operators require `n >= 2` instead of modelling the panic.
- The panic when `function_values` is shorter than the grid (the operators index values up to `num_points - 1`): both operators require at least one value per grid point instead of modelling the panic.
- Division by zero, which yields infinity or NaN in Rust: excluded by each operator's distinctness precondition (`Differentiable`, `CentrallyDifferentiable`).
- The conversion `num_points as f64`, which is exact in the model at every size.
- Rust ownership: `grid.clone()` and the move of the grid into `new_grid_function`. Grids are values here and are copied into results.
