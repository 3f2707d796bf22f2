/** `build_grid`: the `num_steps x num_steps` lattice of points spanning one
    rectangular cell, with interpolated durations when all four corners carry one. */
module Cells {
  import opened Types
  import RowMajor

  /** What `griddata` is handed: the corners as `(longitude, latitude)` pairs, in the
      order bottom-left, bottom-right, top-left, top-right, and their durations. */
  datatype Corners = Corners(points: seq<(real, real)>, values: seq<real>)

  /** `griddata(points, values, (lon, lat), method="linear")` at one lattice point. */
  type Interpolator = (Corners, real, real) -> real

  /** The two shapes `build_grid` returns: `(lat, lon, dur)` triples, or
      `{latitude, longitude}` dictionaries when a corner duration is missing or zero. */
  datatype Grid = Valued(samples: seq<Timed<real>>) | Unvalued(spots: seq<Coord>)
  {
    /** The lattice coordinates, whichever shape carries them. */
    function Points(): seq<Coord>
    {
      match this
      case Valued(ss) => seq(|ss|, k requires 0 <= k < |ss| => ss[k].Key())
      case Unvalued(ps) => ps
    }
  }

  /** The corner opposite `bottom_left`: north edge, east edge. */
  function TopRight(topLeft: Coord, bottomRight: Coord): (c: Coord)
    ensures c.lat == topLeft.lat && c.lon == bottomRight.lon
  {
    Coord(topLeft.lat, bottomRight.lon)
  }

  /** The corner opposite `top_right`: south edge, west edge. */
  function BottomLeft(topLeft: Coord, bottomRight: Coord): (c: Coord)
    ensures c.lat == bottomRight.lat && c.lon == topLeft.lon
  {
    Coord(bottomRight.lat, topLeft.lon)
  }

  /** Python truthiness of a corner duration: neither `None` nor zero. */
  predicate Truthy(d: Option<real>)
  {
    d.Some? && d.value != 0.0
  }

  /** `np.linspace(a, b, n)` over exact reals: `n` evenly spaced values from `a`
      to `b` inclusive; a single sample is `a`. */
  function Linspace(a: real, b: real, n: nat): (r: seq<real>)
    ensures |r| == n
    ensures n >= 1 ==> r[0] == a
    ensures n >= 2 ==> r[n - 1] == b
  {
    if n == 0 then []
    else if n == 1 then [a]
    else
      var step := (b - a) / ((n - 1) as real);
      StepsToEnd(a, b, n - 1);
      seq(n, k requires 0 <= k < n => a + (k as real) * step)
  }

  lemma StepsToEnd(a: real, b: real, m: nat)
    requires m > 0
    ensures a + (m as real) * ((b - a) / (m as real)) == b
  {
  }

  lemma MulStrict(i: real, j: real, s: real)
    requires i < j && s > 0.0
    ensures i * s < j * s
  {
  }

  /** On an interval with `a < b` the samples rise strictly and stay within `[a, b]`. */
  lemma LinspaceIncreasing(a: real, b: real, n: nat)
    requires a < b
    ensures Increasing(Linspace(a, b, n))
    ensures forall v :: v in Linspace(a, b, n) ==> a <= v <= b
  {
    var r := Linspace(a, b, n);
    forall i, j | 0 <= i < j < n ensures r[i] < r[j] {
      LinspaceStrict(a, b, n, i, j);
    }
    forall i | 0 <= i < n ensures a <= r[i] <= b {
      LinspaceWithin(a, b, n, i);
    }
  }

  lemma LinspaceStrict(a: real, b: real, n: nat, i: nat, j: nat)
    requires a < b && i < j < n
    ensures Linspace(a, b, n)[i] < Linspace(a, b, n)[j]
  {
    var step := (b - a) / ((n - 1) as real);
    assert step > 0.0;
    MulStrict(i as real, j as real, step);
    assert Linspace(a, b, n)[i] == a + (i as real) * step;
    assert Linspace(a, b, n)[j] == a + (j as real) * step;
  }

  lemma LinspaceWithin(a: real, b: real, n: nat, i: nat)
    requires a < b && i < n
    ensures a <= Linspace(a, b, n)[i] <= b
  {
    if n >= 2 {
      var step := (b - a) / ((n - 1) as real);
      assert step > 0.0;
      assert Linspace(a, b, n)[i] == a + (i as real) * step;
      if 0 < i {
        MulStrict(0.0, i as real, step);
      }
      if i < n - 1 {
        MulStrict(i as real, (n - 1) as real, step);
      }
    }
  }

  /** One row of `np.meshgrid(xs, ys)`: latitude `lat` at every longitude of `xs`. */
  function Row(lat: real, xs: seq<real>): (row: seq<Coord>)
    ensures |row| == |xs|
  {
    seq(|xs|, c requires 0 <= c < |xs| => Coord(lat, xs[c]))
  }

  /** `np.meshgrid(xs, ys)` flattened with `ravel()` and zipped: the rows one after
      another, from the first latitude of `ys` to the last. */
  function Lattice(xs: seq<real>, ys: seq<real>): (ps: seq<Coord>)
    ensures |ps| == |ys| * |xs|
  {
    if ys == [] then []
    else
      var init := ys[..|ys| - 1];
      assert |init| * |xs| + |xs| == |ys| * |xs|;
      Lattice(xs, init) + Row(ys[|ys| - 1], xs)
  }

  /** Row `r`, column `c` of the lattice is latitude `ys[r]`, longitude `xs[c]`. */
  lemma {:induction false} LatticeAt(xs: seq<real>, ys: seq<real>, r: nat, c: nat)
    requires r < |ys| && c < |xs|
    ensures r * |xs| + c < |Lattice(xs, ys)| && Lattice(xs, ys)[r * |xs| + c] == Coord(ys[r], xs[c])
  {
    var init := ys[..|ys| - 1];
    RowMajor.MulLeft(r + 1, |ys|, |xs|);
    if r < |init| {
      LatticeAt(xs, init, r, c);
      RowMajor.MulLeft(r + 1, |init|, |xs|);
      assert ys[r] == init[r];
    }
  }

  /** Every lattice point takes its latitude from `ys` and its longitude from `xs`. */
  lemma {:induction false} LatticeMembers(xs: seq<real>, ys: seq<real>)
    ensures forall p :: p in Lattice(xs, ys) ==> p.lat in ys && p.lon in xs
  {
    if ys != [] {
      var init := ys[..|ys| - 1];
      LatticeMembers(xs, init);
      forall p | p in Lattice(xs, ys) ensures p.lat in ys && p.lon in xs {
        if p in Lattice(xs, init) {
          var t :| 0 <= t < |init| && init[t] == p.lat;
          assert ys[t] == p.lat;
        }
      }
    }
  }

  /** Strictly south-west of: a smaller latitude, or the same latitude and a
      smaller longitude. */
  predicate Before(p: Coord, q: Coord)
  {
    p.lat < q.lat || (p.lat == q.lat && p.lon < q.lon)
  }

  predicate Increasing(s: seq<real>)
  {
    forall i, j :: 0 <= i < j < |s| ==> s[i] < s[j]
  }

  /** Over strictly increasing axes the lattice ascends strictly in (latitude,
      longitude) order, so no point repeats. */
  lemma {:induction false} LatticeAscending(xs: seq<real>, ys: seq<real>)
    requires Increasing(xs) && Increasing(ys)
    ensures forall i, j :: 0 <= i < j < |Lattice(xs, ys)| ==> Before(Lattice(xs, ys)[i], Lattice(xs, ys)[j])
  {
    if ys != [] {
      var init := ys[..|ys| - 1];
      var a, b := Lattice(xs, init), Row(ys[|ys| - 1], xs);
      var ps := Lattice(xs, ys);
      assert ps == a + b;
      LatticeAscending(xs, init);
      LatticeMembers(xs, init);
      forall i, j | 0 <= i < j < |ps| ensures Before(ps[i], ps[j]) {
        if j < |a| {
          assert ps[i] == a[i] && ps[j] == a[j];
        } else if i >= |a| {
          assert ps[i] == b[i - |a|] && ps[j] == b[j - |a|];
        } else {
          assert a[i] in a;
          var t :| 0 <= t < |init| && init[t] == a[i].lat;
          assert ys[t] < ys[|ys| - 1];
          assert ps[i] == a[i] && ps[j] == b[j - |a|];
        }
      }
    }
  }

  /** The four corners in `griddata`'s `points` order, each as `(lon, lat)`. */
  function CornerPoints(topLeft: Coord, bottomRight: Coord): (ps: seq<(real, real)>)
    ensures ps == [(topLeft.lon, bottomRight.lat), (bottomRight.lon, bottomRight.lat),
                   (topLeft.lon, topLeft.lat), (bottomRight.lon, topLeft.lat)]
  {
    var tr := TopRight(topLeft, bottomRight);
    var bl := BottomLeft(topLeft, bottomRight);
    [Swap(DictToTuple(bl)), Swap(DictToTuple(bottomRight)), Swap(DictToTuple(topLeft)), Swap(DictToTuple(tr))]
  }

  /** `tup[::-1]` on a pair. */
  function Swap(t: (real, real)): (s: (real, real))
    ensures s.0 == t.1 && s.1 == t.0
  {
    (t.1, t.0)
  }

  /** The lattice axes of a cell: longitudes west to east, latitudes south to north. */
  function Axes(topLeft: Coord, bottomRight: Coord, n: nat): (seq<real>, seq<real>)
  {
    var bl := BottomLeft(topLeft, bottomRight);
    (Linspace(bl.lon, bottomRight.lon, n), Linspace(bl.lat, topLeft.lat, n))
  }

  /** `build_grid(top_left, bottom_right, num_steps, tl, tr, bl, br)`. */
  function BuildGrid(topLeft: Coord, bottomRight: Coord, numSteps: int,
                     dTopLeft: Option<real>, dTopRight: Option<real>,
                     dBottomLeft: Option<real>, dBottomRight: Option<real>,
                     interp: Interpolator): Result<Grid>
  {
    var topRight := TopRight(topLeft, bottomRight);
    var bottomLeft := BottomLeft(topLeft, bottomRight);
    var deltaX := topRight.lon - topLeft.lon;
    var deltaY := topLeft.lat - bottomLeft.lat;
    if !(deltaX > 0.0 && deltaY > 0.0) then Err(AssertionFailed(1))
    else if !(bottomLeft.lon < bottomRight.lon) then Err(AssertionFailed(2))
    else if !(bottomLeft.lat < topLeft.lat) then Err(AssertionFailed(3))
    else if numSteps < 0 then Err(NegativeSampleCount)
    else
      var (xs, ys) := Axes(topLeft, bottomRight, numSteps);
      var ps := Lattice(xs, ys);
      if Truthy(dBottomLeft) && Truthy(dBottomRight) && Truthy(dTopLeft) && Truthy(dTopRight) then
        var corners := Corners(CornerPoints(topLeft, bottomRight),
          [dBottomLeft.value, dBottomRight.value, dTopLeft.value, dTopRight.value]);
        Ok(Valued(seq(|ps|, k requires 0 <= k < |ps| => Timed(ps[k].lat, ps[k].lon, interp(corners, ps[k].lon, ps[k].lat)))))
      else
        Ok(Unvalued(ps))
  }

  /** The cell is well formed: its top-left corner is strictly west of and strictly
      north of its bottom-right corner. */
  predicate Ordered(topLeft: Coord, bottomRight: Coord)
  {
    topLeft.lon < bottomRight.lon && bottomRight.lat < topLeft.lat
  }

  /** The rebuilt corners close a rectangle: top edge at the top-left latitude,
      bottom edge at the bottom-right latitude, west edge at the top-left
      longitude, east edge at the bottom-right longitude. */
  lemma CornersFormRectangle(topLeft: Coord, bottomRight: Coord)
    ensures TopRight(topLeft, bottomRight).lat == topLeft.lat
    ensures BottomLeft(topLeft, bottomRight).lat == bottomRight.lat
    ensures BottomLeft(topLeft, bottomRight).lon == topLeft.lon
    ensures TopRight(topLeft, bottomRight).lon == bottomRight.lon
    ensures Ordered(topLeft, bottomRight) ==>
      |{topLeft, TopRight(topLeft, bottomRight), BottomLeft(topLeft, bottomRight), bottomRight}| == 4
  {
  }

  /** `build_grid` raises exactly when the cell is not well formed (always by
      assert 1; asserts 2 and 3 can never fire) or the step count is negative. */
  lemma BuildGridFails(topLeft: Coord, bottomRight: Coord, numSteps: int,
                       dTopLeft: Option<real>, dTopRight: Option<real>,
                       dBottomLeft: Option<real>, dBottomRight: Option<real>, interp: Interpolator)
    ensures var r := BuildGrid(topLeft, bottomRight, numSteps, dTopLeft, dTopRight, dBottomLeft, dBottomRight, interp);
      && (r.Err? <==> !Ordered(topLeft, bottomRight) || numSteps < 0)
      && (!Ordered(topLeft, bottomRight) ==> r == Err(AssertionFailed(1)))
      && (Ordered(topLeft, bottomRight) && numSteps < 0 ==> r == Err(NegativeSampleCount))
      && r != Err(AssertionFailed(2)) && r != Err(AssertionFailed(3))
  {
  }

  /** A successful call came from a well-formed cell and a non-negative step
      count, and its points are the lattice over the cell's axes. */
  lemma GridPoints(topLeft: Coord, bottomRight: Coord, numSteps: int,
                   dTopLeft: Option<real>, dTopRight: Option<real>,
                   dBottomLeft: Option<real>, dBottomRight: Option<real>, interp: Interpolator)
    requires BuildGrid(topLeft, bottomRight, numSteps, dTopLeft, dTopRight, dBottomLeft, dBottomRight, interp).Ok?
    ensures Ordered(topLeft, bottomRight) && numSteps >= 0
    ensures BuildGrid(topLeft, bottomRight, numSteps, dTopLeft, dTopRight, dBottomLeft, dBottomRight, interp).value.Points()
      == Lattice(Axes(topLeft, bottomRight, numSteps).0, Axes(topLeft, bottomRight, numSteps).1)
  {
    var g := BuildGrid(topLeft, bottomRight, numSteps, dTopLeft, dTopRight, dBottomLeft, dBottomRight, interp).value;
    var (xs, ys) := Axes(topLeft, bottomRight, numSteps);
    var ps := Lattice(xs, ys);
    if g.Valued? {
      assert |g.Points()| == |ps|;
      forall k | 0 <= k < |ps| ensures g.Points()[k] == ps[k] {
      }
    }
  }

  /** A successful call yields `num_steps²` points, as triples exactly when all four
      corner durations are truthy; row `r`, column `c` is the `r`-th latitude and the
      `c`-th longitude. */
  lemma BuildGridShape(topLeft: Coord, bottomRight: Coord, numSteps: int,
                       dTopLeft: Option<real>, dTopRight: Option<real>,
                       dBottomLeft: Option<real>, dBottomRight: Option<real>, interp: Interpolator)
    requires BuildGrid(topLeft, bottomRight, numSteps, dTopLeft, dTopRight, dBottomLeft, dBottomRight, interp).Ok?
    ensures numSteps >= 0
    ensures var g := BuildGrid(topLeft, bottomRight, numSteps, dTopLeft, dTopRight, dBottomLeft, dBottomRight, interp).value;
      var (xs, ys) := Axes(topLeft, bottomRight, numSteps);
      && |g.Points()| == numSteps * numSteps
      && (g.Valued? <==> Truthy(dBottomLeft) && Truthy(dBottomRight) && Truthy(dTopLeft) && Truthy(dTopRight))
      && (forall r, c :: 0 <= r < numSteps && 0 <= c < numSteps ==>
            (RowMajor.IndexOf(r, c, numSteps); g.Points()[r * numSteps + c] == Coord(ys[r], xs[c])))
  {
    GridPoints(topLeft, bottomRight, numSteps, dTopLeft, dTopRight, dBottomLeft, dBottomRight, interp);
    var (xs, ys) := Axes(topLeft, bottomRight, numSteps);
    LatticeGrid(xs, ys, numSteps);
  }

  /** An `n x n` lattice, position by position. */
  lemma {:induction false} LatticeGrid(xs: seq<real>, ys: seq<real>, n: nat)
    requires |xs| == n && |ys| == n
    ensures |Lattice(xs, ys)| == n * n
    ensures forall r, c :: 0 <= r < n && 0 <= c < n ==>
      (RowMajor.IndexOf(r, c, n); Lattice(xs, ys)[r * n + c] == Coord(ys[r], xs[c]))
  {
    forall r, c | 0 <= r < n && 0 <= c < n
      ensures Lattice(xs, ys)[r * n + c] == Coord(ys[r], xs[c])
    {
      LatticeCell(xs, ys, n, r, c);
    }
  }

  /** One position of an `n x n` lattice, with the row length written as `n`. */
  lemma {:induction false} LatticeCell(xs: seq<real>, ys: seq<real>, n: nat, r: nat, c: nat)
    requires |xs| == n && r < |ys| && c < n
    ensures r * n + c < |Lattice(xs, ys)| && Lattice(xs, ys)[r * n + c] == Coord(ys[r], xs[c])
  {
    LatticeAt(xs, ys, r, c);
  }

  /** Each triple carries what `griddata` interpolates at its own point from the
      four corners, passed as bottom-left, bottom-right, top-left, top-right. */
  lemma BuildGridValues(topLeft: Coord, bottomRight: Coord, numSteps: int,
                        dTopLeft: Option<real>, dTopRight: Option<real>,
                        dBottomLeft: Option<real>, dBottomRight: Option<real>, interp: Interpolator)
    requires BuildGrid(topLeft, bottomRight, numSteps, dTopLeft, dTopRight, dBottomLeft, dBottomRight, interp).Ok?
    requires BuildGrid(topLeft, bottomRight, numSteps, dTopLeft, dTopRight, dBottomLeft, dBottomRight, interp).value.Valued?
    ensures var g := BuildGrid(topLeft, bottomRight, numSteps, dTopLeft, dTopRight, dBottomLeft, dBottomRight, interp).value;
      && Truthy(dBottomLeft) && Truthy(dBottomRight) && Truthy(dTopLeft) && Truthy(dTopRight)
      && forall k :: 0 <= k < |g.samples| ==>
           g.samples[k].dur == interp(Corners(CornerPoints(topLeft, bottomRight),
             [dBottomLeft.value, dBottomRight.value, dTopLeft.value, dTopRight.value]), g.samples[k].lon, g.samples[k].lat)
  {
  }

  /** For at least two steps the first point is the bottom-left corner and the last
      the top-right corner; a single step yields just the bottom-left corner. */
  lemma BuildGridEnds(topLeft: Coord, bottomRight: Coord, numSteps: int,
                      dTopLeft: Option<real>, dTopRight: Option<real>,
                      dBottomLeft: Option<real>, dBottomRight: Option<real>, interp: Interpolator)
    requires BuildGrid(topLeft, bottomRight, numSteps, dTopLeft, dTopRight, dBottomLeft, dBottomRight, interp).Ok?
    ensures var ps := BuildGrid(topLeft, bottomRight, numSteps, dTopLeft, dTopRight, dBottomLeft, dBottomRight, interp).value.Points();
      && (numSteps == 1 ==> ps == [BottomLeft(topLeft, bottomRight)])
      && (numSteps >= 2 ==> ps[0] == BottomLeft(topLeft, bottomRight) && ps[|ps| - 1] == TopRight(topLeft, bottomRight))
  {
    GridPoints(topLeft, bottomRight, numSteps, dTopLeft, dTopRight, dBottomLeft, dBottomRight, interp);
    var (xs, ys) := Axes(topLeft, bottomRight, numSteps);
    var n := numSteps;
    if n >= 1 {
      LatticeAt(xs, ys, 0, 0);
      LatticeAt(xs, ys, n - 1, n - 1);
      assert (n - 1) * n + (n - 1) == n * n - 1;
      if n == 1 {
        assert Lattice(xs, ys) == [Lattice(xs, ys)[0]];
      }
    }
  }

  /** Every point lies inside the cell, and no point repeats: the lattice ascends
      strictly in (latitude, longitude) order. */
  lemma BuildGridInside(topLeft: Coord, bottomRight: Coord, numSteps: int,
                        dTopLeft: Option<real>, dTopRight: Option<real>,
                        dBottomLeft: Option<real>, dBottomRight: Option<real>, interp: Interpolator)
    requires BuildGrid(topLeft, bottomRight, numSteps, dTopLeft, dTopRight, dBottomLeft, dBottomRight, interp).Ok?
    ensures var ps := BuildGrid(topLeft, bottomRight, numSteps, dTopLeft, dTopRight, dBottomLeft, dBottomRight, interp).value.Points();
      && (forall p :: p in ps ==>
            bottomRight.lat <= p.lat <= topLeft.lat && topLeft.lon <= p.lon <= bottomRight.lon)
      && (forall i, j :: 0 <= i < j < |ps| ==> Before(ps[i], ps[j]))
  {
    GridPoints(topLeft, bottomRight, numSteps, dTopLeft, dTopRight, dBottomLeft, dBottomRight, interp);
    var bl := BottomLeft(topLeft, bottomRight);
    var (xs, ys) := Axes(topLeft, bottomRight, numSteps);
    LinspaceIncreasing(bl.lon, bottomRight.lon, numSteps);
    LinspaceIncreasing(bl.lat, topLeft.lat, numSteps);
    LatticeMembers(xs, ys);
    LatticeAscending(xs, ys);
  }
}
