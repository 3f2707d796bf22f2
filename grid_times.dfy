/** `get_grid_times`: fetch the grid from every origin, combine, sort into a
    `grid_size x grid_size` matrix, rebuild every cell with `build_grid` and
    deduplicate the result. */
module GridTimes {
  import opened Types
  import RowMajor
  import Fetch
  import Aggregate
  import Cells

  /** The grid side actually used: the size picked from the origin count is
      overwritten with 38 right after. */
  const GridSize: nat := 38

  /** `num_steps` handed to `build_grid` for every cell. */
  const CellSteps: nat := 5

  // ---------------------------------------------------------------- sorting

  /** `custom_sort_fun(a) <= custom_sort_fun(b)`: the keys `(-lat, lon)` compared
      as Python tuples, so north before south, then west before east. */
  predicate KeyLe(a: Timed<real>, b: Timed<real>)
  {
    -a.lat < -b.lat || (-a.lat == -b.lat && a.lon <= b.lon)
  }

  predicate SortedByKey(s: seq<Timed<real>>)
  {
    forall i, j :: 0 <= i < j < |s| ==> KeyLe(s[i], s[j])
  }

  /** Puts `t` in front of the first element whose key is not smaller, so that
      `t` stays ahead of the equal keys that followed it in the input. */
  function Insert(t: Timed<real>, s: seq<Timed<real>>): (r: seq<Timed<real>>)
    requires SortedByKey(s)
    ensures SortedByKey(r)
    ensures multiset(r) == multiset(s) + multiset{t}
  {
    if s == [] || KeyLe(t, s[0]) then [t] + s
    else
      var rest := Insert(t, s[1..]);
      assert s == [s[0]] + s[1..];
      HeadStaysFirst(s[0], t, s[1..], rest);
      [s[0]] + rest
  }

  /** An element that sorts ahead of `t` and of everything in `tail` may head any
      sorted arrangement of `tail` and `t`. */
  lemma HeadStaysFirst(h: Timed<real>, t: Timed<real>, tail: seq<Timed<real>>, rest: seq<Timed<real>>)
    requires SortedByKey([h] + tail) && !KeyLe(t, h)
    requires SortedByKey(rest) && multiset(rest) == multiset(tail) + multiset{t}
    ensures SortedByKey([h] + rest)
  {
    var r := [h] + rest;
    forall j | 0 < j < |r| ensures KeyLe(h, r[j]) {
      assert r[j] == rest[j - 1];
      assert rest[j - 1] in multiset(rest);
      if rest[j - 1] != t {
        assert rest[j - 1] in multiset(tail);
        var k :| 0 <= k < |tail| && tail[k] == rest[j - 1];
        assert ([h] + tail)[0] == h && ([h] + tail)[k + 1] == tail[k];
      }
    }
  }

  /** `sorted(times, key=custom_sort_fun)`: a stable sort on the key. */
  function SortByKey(s: seq<Timed<real>>): (r: seq<Timed<real>>)
    ensures SortedByKey(r)
    ensures multiset(r) == multiset(s)
    ensures |r| == |s|
  {
    if s == [] then []
    else
      assert s == [s[0]] + s[1..];
      Insert(s[0], SortByKey(s[1..]))
  }

  // ---------------------------------------------------------------- reshape

  predicate Square<T>(m: seq<seq<T>>, g: nat)
  {
    |m| == g && forall r :: 0 <= r < g ==> |m[r]| == g
  }

  /** `np.array(times).reshape(g, g, 3)`: row `r` holds entries `r*g .. r*g+g-1`;
      any other length than `g*g` raises ValueError. */
  function Reshape<T>(s: seq<T>, g: nat): (r: Result<seq<seq<T>>>)
    ensures r.Ok? <==> |s| == g * g
    ensures r.Ok? ==> Square(r.value, g)
  {
    if |s| != g * g then Err(ReshapeMismatch)
    else Ok(seq(g, row requires 0 <= row < g => RowOf(s, g, row)))
  }

  /** Row `row` of the reshaped matrix. */
  function RowOf<T>(s: seq<T>, g: nat, row: nat): (r: seq<T>)
    requires |s| == g * g && row < g
    ensures |r| == g
  {
    RowMajor.RowSlice(row, g);
    s[row * g .. row * g + g]
  }

  /** Entry `[r][c]` of the matrix is entry `r*g + c` of the list. */
  lemma ReshapeAt<T>(s: seq<T>, g: nat, r: nat, c: nat)
    requires Reshape(s, g).Ok? && r < g && c < g
    ensures r * g + c < |s| && Reshape(s, g).value[r][c] == s[r * g + c]
  {
    RowMajor.IndexOf(r, c, g);
    RowMajor.RowSlice(r, g);
  }

  /** Flattening the matrix back gives the list: `ravel` undoes `reshape`. */
  lemma ReshapeRoundTrip<T>(s: seq<T>, g: nat)
    requires Reshape(s, g).Ok?
    ensures Aggregate.Flatten(Reshape(s, g).value) == s
  {
    var m := Reshape(s, g).value;
    RowsPrefix(s, g, g);
    assert m[..g] == m;
  }

  lemma {:induction false} RowsPrefix<T>(s: seq<T>, g: nat, k: nat)
    requires Reshape(s, g).Ok? && k <= g
    ensures k * g <= |s| && Aggregate.Flatten(Reshape(s, g).value[..k]) == s[..k * g]
  {
    var m := Reshape(s, g).value;
    RowMajor.MulLeft(k, g, g);
    if k > 0 {
      RowsPrefix(s, g, k - 1);
      Aggregate.FlattenSnoc(m, k - 1);
      RowMajor.RowSlice(k - 1, g);
      assert m[k - 1] == s[(k - 1) * g .. (k - 1) * g + g];
      assert (k - 1) * g + g == k * g;
      assert s[..k * g] == s[..(k - 1) * g] + s[(k - 1) * g .. k * g];
    }
  }

  /** Sorting and then reshaping lays the points out row by row from north to
      south and, within a row, from west to east: an entry earlier in row-major
      order never has a larger sort key. */
  lemma SortedMatrix(s: seq<Timed<real>>, g: nat, r1: nat, c1: nat, r2: nat, c2: nat)
    requires SortedByKey(s) && Reshape(s, g).Ok?
    requires r1 < g && c1 < g && r2 < g && c2 < g
    requires r1 < r2 || (r1 == r2 && c1 <= c2)
    ensures KeyLe(Reshape(s, g).value[r1][c1], Reshape(s, g).value[r2][c2])
  {
    var i, j := r1 * g + c1, r2 * g + c2;
    RowMajor.Position(r1, c1, r2, c2, g);
    var m := Reshape(s, g).value;
    assert i < |s| && m[r1][c1] == s[i] by {
      ReshapeAt(s, g, r1, c1);
    }
    assert j < |s| && m[r2][c2] == s[j] by {
      ReshapeAt(s, g, r2, c2);
    }
    if i < j {
      assert KeyLe(s[i], s[j]);
    }
  }

  // ---------------------------------------------------------------- the cell walk

  /** An element of `new_times`: a triple from a valued cell, or a
      `{latitude, longitude}` dictionary from an unvalued one. */
  datatype Item = Sample(t: Timed<real>) | Spot(c: Coord)

  /** What `new_times.extend(new_grid)` appends. */
  function Items(grid: Cells.Grid): (items: seq<Item>)
    ensures |items| == |grid.Points()|
    ensures forall k :: 0 <= k < |items| ==> (items[k].Sample? <==> grid.Valued?)
  {
    match grid
    case Valued(ss) => seq(|ss|, k requires 0 <= k < |ss| => Sample(ss[k]))
    case Unvalued(ps) => seq(|ps|, k requires 0 <= k < |ps| => Spot(ps[k]))
  }

  /** Item `k` is the grid's own triple `k` for a valued grid, its dictionary `k` otherwise. */
  lemma ItemsAt(grid: Cells.Grid, k: nat)
    requires k < |grid.Points()|
    ensures k < |Items(grid)|
    ensures grid.Valued? ==> k < |grid.samples| && Items(grid)[k] == Sample(grid.samples[k])
    ensures grid.Unvalued? ==> k < |grid.spots| && Items(grid)[k] == Spot(grid.spots[k])
  {
  }

  /** `tuple_to_dict((times[r][c][0], times[r][c][1]))`. */
  function CornerAt(m: seq<seq<Timed<real>>>, g: nat, r: nat, c: nat): (d: Coord)
    requires Square(m, g) && r < g && c < g
    ensures d == m[r][c].Key()
  {
    TupleToDict((m[r][c].lat, m[r][c].lon))
  }

  /** The `build_grid` call for the cell whose top-left corner is `[row][col]`. */
  function CellAt(m: seq<seq<Timed<real>>>, g: nat, interp: Cells.Interpolator, row: nat, col: nat): Result<Cells.Grid>
    requires Square(m, g) && row + 1 < g && col + 1 < g
  {
    Cells.BuildGrid(CornerAt(m, g, row, col), CornerAt(m, g, row + 1, col + 1), CellSteps,
      Some(m[row][col].dur), Some(m[row][col + 1].dur), Some(m[row + 1][col].dur), Some(m[row + 1][col + 1].dur),
      interp)
  }

  /** The outcome of `build_grid` for each cell, by `(row, col)` of its top-left corner. */
  type CellFn = (nat, nat) -> Result<Cells.Grid>

  /** The cells of the matrix `m`; a corner outside the matrix raises IndexError. */
  function CellGrids(m: seq<seq<Timed<real>>>, g: nat, interp: Cells.Interpolator): CellFn
    requires Square(m, g)
  {
    (row: nat, col: nat) => if row + 1 < g && col + 1 < g then CellAt(m, g, interp, row, col) else Err(IndexOutOfRange)
  }

  /** `cells` is what `build_grid` gives for every cell of the matrix `m`. */
  ghost predicate Agrees(cells: CellFn, m: seq<seq<Timed<real>>>, g: nat, interp: Cells.Interpolator)
  {
    && Square(m, g)
    && forall row: nat, col: nat {:trigger CellAt(m, g, interp, row, col)} ::
         row + 1 < g && col + 1 < g ==> cells(row, col) == CellAt(m, g, interp, row, col)
  }

  lemma CellGridsAgree(m: seq<seq<Timed<real>>>, g: nat, interp: Cells.Interpolator)
    requires Square(m, g)
    ensures Agrees(CellGrids(m, g, interp), m, g, interp)
  {
  }

  /** The items of cells `[0][col] .. [rows-1][col]`, or the first exception. */
  function WalkColumn(cells: CellFn, col: nat, rows: nat): Result<seq<Item>>
  {
    if rows == 0 then Ok([])
    else
      match WalkColumn(cells, col, rows - 1)
      case Err(e) => Err(e)
      case Ok(acc) =>
        match cells(rows - 1, col)
        case Err(e) => Err(e)
        case Ok(grid) => Ok(acc + Items(grid))
  }

  /** The items of the first `cols` columns of an `n x n` block of cells, column
      by column, or the first exception. */
  function Walk(cells: CellFn, n: nat, cols: nat): Result<seq<Item>>
  {
    if cols == 0 then Ok([])
    else
      match Walk(cells, n, cols - 1)
      case Err(e) => Err(e)
      case Ok(acc) =>
        match WalkColumn(cells, cols - 1, n)
        case Err(e) => Err(e)
        case Ok(items) => Ok(acc + items)
  }

  lemma {:induction false} ColumnErrPersists(cells: CellFn, col: nat, rows: nat, more: nat)
    requires rows <= more && WalkColumn(cells, col, rows).Err?
    ensures WalkColumn(cells, col, more) == WalkColumn(cells, col, rows)
  {
    if rows < more {
      ColumnErrPersists(cells, col, rows, more - 1);
    }
  }

  lemma {:induction false} WalkErrPersists(cells: CellFn, n: nat, cols: nat, more: nat)
    requires cols <= more && Walk(cells, n, cols).Err?
    ensures Walk(cells, n, more) == Walk(cells, n, cols)
  {
    if cols < more {
      WalkErrPersists(cells, n, cols, more - 1);
    }
  }

  lemma ColumnStep(cells: CellFn, col: nat, row: nat, acc: seq<Item>)
    requires WalkColumn(cells, col, row) == Ok(acc)
    ensures WalkColumn(cells, col, row + 1) ==
      match cells(row, col)
      case Err(e) => Err(e)
      case Ok(grid) => Ok(acc + Items(grid))
  {
  }

  lemma WalkStep(cells: CellFn, n: nat, col: nat, acc: seq<Item>)
    requires Walk(cells, n, col) == Ok(acc)
    ensures Walk(cells, n, col + 1) ==
      match WalkColumn(cells, col, n)
      case Err(e) => Err(e)
      case Ok(items) => Ok(acc + items)
  {
  }

  /** An exception from column `col` is what the whole walk raises. */
  lemma WalkAbort(cells: CellFn, n: nat, col: nat, acc: seq<Item>)
    requires col < n && Walk(cells, n, col) == Ok(acc) && WalkColumn(cells, col, n).Err?
    ensures Walk(cells, n, n) == WalkColumn(cells, col, n)
  {
    assert Walk(cells, n, col + 1) == WalkColumn(cells, col, n);
    WalkErrPersists(cells, n, col + 1, n);
  }

  /** One pass of the inner loop's body: read the four corners of cell
      `[row][col]` and call `build_grid` on them with 5 steps. */
  method ReadCell(m: seq<seq<Timed<real>>>, g: nat, interp: Cells.Interpolator, row: nat, col: nat,
                  ghost cells: CellFn)
    returns (newGrid: Result<Cells.Grid>)
    requires Agrees(cells, m, g, interp) && row + 1 < g && col + 1 < g
    ensures newGrid == cells(row, col)
  {
    var topLeft, topLeftDuration := TupleToDict((m[row][col].lat, m[row][col].lon)), m[row][col].dur;
    var topRightDuration := m[row][col + 1].dur;
    var bottomRight, bottomRightDuration := TupleToDict((m[row + 1][col + 1].lat, m[row + 1][col + 1].lon)), m[row + 1][col + 1].dur;
    var bottomLeftDuration := m[row + 1][col].dur;
    newGrid := Cells.BuildGrid(topLeft, bottomRight, CellSteps,
      Some(topLeftDuration), Some(topRightDuration), Some(bottomLeftDuration), Some(bottomRightDuration), interp);
    assert newGrid == CellAt(m, g, interp, row, col);
  }

  /** The inner loop over the rows of column `col`, extending `new_times`. */
  method ExtendColumn(m: seq<seq<Timed<real>>>, g: nat, interp: Cells.Interpolator, col: nat, newTimes0: seq<Item>,
                      ghost cells: CellFn)
    returns (r: Result<seq<Item>>)
    requires Agrees(cells, m, g, interp) && col + 1 < g
    ensures r == match WalkColumn(cells, col, g - 1)
      case Err(e) => Err(e)
      case Ok(items) => Ok(newTimes0 + items)
  {
    var newTimes := newTimes0;
    for row := 0 to g - 1
      invariant WalkColumn(cells, col, row).Ok?
      invariant newTimes == newTimes0 + WalkColumn(cells, col, row).value
    {
      var newGrid := ReadCell(m, g, interp, row, col, cells);
      ColumnStep(cells, col, row, WalkColumn(cells, col, row).value);
      if newGrid.Err? {
        r := Err(newGrid.error);
        ColumnErrPersists(cells, col, row + 1, g - 1);
        return;
      }
      newTimes := newTimes + Items(newGrid.value);
    }
    r := Ok(newTimes);
  }

  /** The double loop over cells, column by column, extending `new_times`. */
  method WalkCells(m: seq<seq<Timed<real>>>, g: nat, interp: Cells.Interpolator, ghost cells: CellFn)
    returns (r: Result<seq<Item>>)
    requires Agrees(cells, m, g, interp) && g >= 1
    ensures r == Walk(cells, g - 1, g - 1)
  {
    var newTimes: seq<Item> := [];
    for col := 0 to g - 1
      invariant Walk(cells, g - 1, col) == Ok(newTimes)
    {
      ghost var before := newTimes;
      var extended := ExtendColumn(m, g, interp, col, newTimes, cells);
      if extended.Err? {
        r := extended;
        WalkAbort(cells, g - 1, col, before);
        return;
      }
      newTimes := extended.value;
      WalkStep(cells, g - 1, col, before);
    }
    r := Ok(newTimes);
  }

  // ---------------------------------------------------------------- what the walk yields

  /** Every cell that succeeds yields `k` points. */
  ghost predicate Uniform(cells: CellFn, k: nat)
  {
    forall r, c :: cells(r, c).Ok? ==> |cells(r, c).value.Points()| == k
  }

  lemma {:induction false} ColumnFacts(cells: CellFn, col: nat, rows: nat, k: nat)
    requires Uniform(cells, k)
    ensures WalkColumn(cells, col, rows).Ok? <==> forall r :: 0 <= r < rows ==> cells(r, col).Ok?
    ensures WalkColumn(cells, col, rows).Ok? ==> |WalkColumn(cells, col, rows).value| == rows * k
    ensures WalkColumn(cells, col, rows).Err? ==>
      exists r :: 0 <= r < rows && cells(r, col).Err? && cells(r, col).error == WalkColumn(cells, col, rows).error
  {
    if rows > 0 {
      ColumnFacts(cells, col, rows - 1, k);
      if WalkColumn(cells, col, rows - 1).Err? {
        var r :| 0 <= r < rows - 1 && cells(r, col).Err? && cells(r, col).error == WalkColumn(cells, col, rows - 1).error;
        assert cells(r, col).Err?;
      } else if cells(rows - 1, col).Ok? {
        MulSucc(rows - 1, k);
      }
    }
  }

  lemma MulSucc(a: nat, b: nat)
    ensures (a + 1) * b == a * b + b
  {
  }

  lemma MulAssoc(a: nat, b: nat, c: nat)
    ensures a * (b * c) == a * b * c
  {
  }

  /** The walk succeeds exactly when every cell does, and otherwise raises one cell's error. */
  lemma {:induction false} WalkFacts(cells: CellFn, n: nat, cols: nat, k: nat)
    requires Uniform(cells, k)
    ensures Walk(cells, n, cols).Ok? <==> forall r, c :: 0 <= r < n && 0 <= c < cols ==> cells(r, c).Ok?
    ensures Walk(cells, n, cols).Err? ==>
      exists r, c :: 0 <= r < n && 0 <= c < cols && cells(r, c).Err? && cells(r, c).error == Walk(cells, n, cols).error
  {
    if cols > 0 {
      WalkFacts(cells, n, cols - 1, k);
      ColumnFacts(cells, cols - 1, n, k);
      if Walk(cells, n, cols - 1).Err? {
        var r, c :| 0 <= r < n && 0 <= c < cols - 1 && cells(r, c).Err? && cells(r, c).error == Walk(cells, n, cols - 1).error;
        assert cells(r, c).Err?;
      } else if WalkColumn(cells, cols - 1, n).Err? {
        var r :| 0 <= r < n && cells(r, cols - 1).Err? && cells(r, cols - 1).error == WalkColumn(cells, cols - 1, n).error;
        assert cells(r, cols - 1).Err?;
      }
    }
  }

  /** A successful walk over `cols` columns of `n` cells of `k` points each holds `cols * n * k` items. */
  lemma {:induction false} WalkLength(cells: CellFn, n: nat, cols: nat, k: nat)
    requires Uniform(cells, k) && Walk(cells, n, cols).Ok?
    ensures |Walk(cells, n, cols).value| == cols * (n * k)
  {
    if cols > 0 {
      WalkLength(cells, n, cols - 1, k);
      ColumnFacts(cells, cols - 1, n, k);
      MulSucc(cols - 1, n * k);
    }
  }

  /** Every item of a cell of a successful walk is among the walk's items. */
  lemma {:induction false} WalkContains(cells: CellFn, n: nat, cols: nat, r: nat, c: nat)
    requires Walk(cells, n, cols).Ok? && r < n && c < cols
    ensures cells(r, c).Ok? && forall x :: x in Items(cells(r, c).value) ==> x in Walk(cells, n, cols).value
  {
    if c < cols - 1 {
      WalkContains(cells, n, cols - 1, r, c);
    } else {
      ColumnContains(cells, c, n, r);
    }
  }

  lemma {:induction false} ColumnContains(cells: CellFn, col: nat, rows: nat, r: nat)
    requires WalkColumn(cells, col, rows).Ok? && r < rows
    ensures cells(r, col).Ok? && forall x :: x in Items(cells(r, col).value) ==> x in WalkColumn(cells, col, rows).value
  {
    if r < rows - 1 {
      ColumnContains(cells, col, rows - 1, r);
    }
  }

  /** The corners of cell `[r][c]` are ordered as `build_grid` asserts. */
  predicate CellOrdered(m: seq<seq<Timed<real>>>, g: nat, r: nat, c: nat)
    requires Square(m, g) && r + 1 < g && c + 1 < g
  {
    Cells.Ordered(m[r][c].Key(), m[r + 1][c + 1].Key())
  }

  lemma CellOutcome(m: seq<seq<Timed<real>>>, g: nat, interp: Cells.Interpolator, r: nat, c: nat)
    requires Square(m, g) && r + 1 < g && c + 1 < g
    ensures CellGrids(m, g, interp)(r, c).Ok? <==> CellOrdered(m, g, r, c)
    ensures CellGrids(m, g, interp)(r, c).Err? ==> CellGrids(m, g, interp)(r, c).error == AssertionFailed(1)
    ensures CellGrids(m, g, interp)(r, c).Ok? ==>
      |CellGrids(m, g, interp)(r, c).value.Points()| == CellSteps * CellSteps
      && (CellGrids(m, g, interp)(r, c).value.Unvalued? <==>
            m[r][c].dur == 0.0 || m[r][c + 1].dur == 0.0 || m[r + 1][c].dur == 0.0 || m[r + 1][c + 1].dur == 0.0)
  {
    var tl, br := CornerAt(m, g, r, c), CornerAt(m, g, r + 1, c + 1);
    var args := (Some(m[r][c].dur), Some(m[r][c + 1].dur), Some(m[r + 1][c].dur), Some(m[r + 1][c + 1].dur));
    Cells.BuildGridFails(tl, br, CellSteps, args.0, args.1, args.2, args.3, interp);
    if CellAt(m, g, interp, r, c).Ok? {
      Cells.BuildGridShape(tl, br, CellSteps, args.0, args.1, args.2, args.3, interp);
    }
  }

  lemma CellGridsUniform(m: seq<seq<Timed<real>>>, g: nat, interp: Cells.Interpolator)
    requires Square(m, g)
    ensures Uniform(CellGrids(m, g, interp), CellSteps * CellSteps)
  {
    var cells := CellGrids(m, g, interp);
    forall r, c | cells(r, c).Ok? ensures |cells(r, c).value.Points()| == CellSteps * CellSteps {
      CellOutcome(m, g, interp, r, c);
    }
  }

  /** What every cell of the matrix `m` gives: success exactly for ordered corners,
      and otherwise `build_grid`'s first assertion. */
  ghost predicate CellsOutcome(cells: CellFn, m: seq<seq<Timed<real>>>, g: nat)
    requires Square(m, g)
  {
    forall r: nat, c: nat :: r + 1 < g && c + 1 < g ==>
      (cells(r, c).Ok? <==> CellOrdered(m, g, r, c)) && (cells(r, c).Err? ==> cells(r, c).error == AssertionFailed(1))
  }

  lemma CellGridsOutcome(m: seq<seq<Timed<real>>>, g: nat, interp: Cells.Interpolator)
    requires Square(m, g)
    ensures CellsOutcome(CellGrids(m, g, interp), m, g)
  {
    forall r: nat, c: nat | r + 1 < g && c + 1 < g
      ensures (CellGrids(m, g, interp)(r, c).Ok? <==> CellOrdered(m, g, r, c))
      ensures CellGrids(m, g, interp)(r, c).Err? ==> CellGrids(m, g, interp)(r, c).error == AssertionFailed(1)
    {
      CellOutcome(m, g, interp, r, c);
    }
  }

  /** `WalkOutcome` for any cell function with those outcomes. */
  lemma CellsWalkOutcome(cells: CellFn, m: seq<seq<Timed<real>>>, g: nat)
    requires Square(m, g) && g >= 1
    requires CellsOutcome(cells, m, g) && Uniform(cells, CellSteps * CellSteps)
    ensures var w := Walk(cells, g - 1, g - 1);
      && (w.Ok? <==> forall r, c :: 0 <= r < g - 1 && 0 <= c < g - 1 ==> CellOrdered(m, g, r, c))
      && (w.Err? ==> w.error == AssertionFailed(1))
      && (w.Ok? ==> |w.value| == (g - 1) * (g - 1) * (CellSteps * CellSteps))
  {
    WalkFacts(cells, g - 1, g - 1, CellSteps * CellSteps);
    var w := Walk(cells, g - 1, g - 1);
    if w.Ok? {
      WalkLength(cells, g - 1, g - 1, CellSteps * CellSteps);
      MulAssoc(g - 1, g - 1, CellSteps * CellSteps);
    }
  }

  /** The walk over a `g x g` matrix succeeds exactly when every cell's top-left
      corner is strictly north-west of its bottom-right corner; it then yields
      `(g-1)² · 25` items, and otherwise raises `build_grid`'s first assertion. */
  lemma WalkOutcome(m: seq<seq<Timed<real>>>, g: nat, interp: Cells.Interpolator)
    requires Square(m, g) && g >= 1
    ensures var w := Walk(CellGrids(m, g, interp), g - 1, g - 1);
      && (w.Ok? <==> forall r, c :: 0 <= r < g - 1 && 0 <= c < g - 1 ==> CellOrdered(m, g, r, c))
      && (w.Err? ==> w.error == AssertionFailed(1))
      && (w.Ok? ==> |w.value| == (g - 1) * (g - 1) * (CellSteps * CellSteps))
  {
    CellGridsUniform(m, g, interp);
    CellGridsOutcome(m, g, interp);
    CellsWalkOutcome(CellGrids(m, g, interp), m, g);
  }

  // ---------------------------------------------------------------- dedup

  predicate NoDups<T(==)>(s: seq<T>)
  {
    forall i, j :: 0 <= i < j < |s| ==> s[i] != s[j]
  }

  /** The elements of `s`, each once, in order of first occurrence. */
  function Distinct<T(==,!new)>(s: seq<T>): (r: seq<T>)
    ensures forall x :: x in r <==> x in s
    ensures NoDups(r)
    ensures |r| <= |s|
  {
    if s == [] then []
    else
      var d := Distinct(s[..|s| - 1]);
      if s[|s| - 1] in d then d else d + [s[|s| - 1]]
  }

  function SamplesOf(items: seq<Item>): (ts: seq<Timed<real>>)
    requires forall k :: 0 <= k < |items| ==> items[k].Sample?
    ensures |ts| == |items|
  {
    seq(|items|, k requires 0 <= k < |items| => items[k].t)
  }

  /** Triple `k` is the one item `k` carries. */
  lemma SamplesOfAt(items: seq<Item>, k: nat)
    requires forall j :: 0 <= j < |items| ==> items[j].Sample?
    requires k < |items|
    ensures k < |SamplesOf(items)| && items[k] == Sample(SamplesOf(items)[k])
  {
  }

  /** `list(set(new_times))`: hashing a `{latitude, longitude}` dictionary raises
      TypeError; otherwise each distinct triple once. */
  function Dedupe(items: seq<Item>): (r: Result<seq<Timed<real>>>)
    ensures r.Err? <==> exists k :: 0 <= k < |items| && items[k].Spot?
    ensures r.Err? ==> r.error == UnhashableDict
    ensures r.Ok? ==> (forall t :: t in r.value <==> Sample(t) in items) && NoDups(r.value)
  {
    if exists k :: 0 <= k < |items| && items[k].Spot? then Err(UnhashableDict)
    else
      var ts := SamplesOf(items);
      assert forall t :: t in ts <==> Sample(t) in items by {
        forall t ensures t in ts <==> Sample(t) in items {
          if Sample(t) in items {
            var k :| 0 <= k < |items| && items[k] == Sample(t);
            assert ts[k] == t;
          }
        }
      }
      Ok(Distinct(ts))
  }

  // ---------------------------------------------------------------- get_grid_times

  /** Durations once `np.array(times)` holds them as floats. */
  function AsReal(ts: seq<Timed<int>>): (r: seq<Timed<real>>)
    ensures |r| == |ts|
    ensures forall i :: 0 <= i < |ts| ==> r[i].Key() == ts[i].Key() && r[i].dur == ts[i].dur as real
  {
    seq(|ts|, i requires 0 <= i < |ts| => Timed(ts[i].lat, ts[i].lon, ts[i].dur as real))
  }

  /** The list handed to `sorted`: one origin's list unchanged, or the combination
      the mode names. With another mode and at least two origins `times` stays a
      list of lists, and the sort key fails on its first element: IndexError when
      that list is empty, TypeError from negating a tuple otherwise. */
  function Combine(times: seq<seq<Timed<int>>>, mode: string): (r: Result<seq<Timed<real>>>)
    ensures r.Err? <==> |times| >= 2 && mode != "max" && mode != "average"
  {
    if |times| == 1 then Ok(AsReal(times[0]))
    else if mode == "max" then Ok(AsReal(Aggregate.MaxCombine(times)))
    else if mode == "average" then Ok(Aggregate.MeanCombine(times))
    else if |times| == 0 then Ok([])
    else if times[0] == [] then Err(IndexOutOfRange)
    else Err(BadSortOperand)
  }

  /** `[get_time_for_dests(start, grid_points) for start in starts]` over the first
      `n` origins, or the first exception. */
  function FetchAll(origins: seq<Coord>, gridPoints: seq<Coord>, provider: Fetch.Provider, n: nat): Result<seq<seq<Timed<int>>>>
    requires n <= |origins|
  {
    if n == 0 then Ok([])
    else
      match FetchAll(origins, gridPoints, provider, n - 1)
      case Err(e) => Err(e)
      case Ok(acc) =>
        match Fetch.FetchSpec(origins[n - 1], gridPoints, provider)
        case Err(e) => Err(e)
        case Ok(ts) => Ok(acc + [ts])
  }

  lemma {:induction false} FetchAllErrPersists(origins: seq<Coord>, gridPoints: seq<Coord>, provider: Fetch.Provider, n: nat, more: nat)
    requires n <= more <= |origins| && FetchAll(origins, gridPoints, provider, n).Err?
    ensures FetchAll(origins, gridPoints, provider, more) == FetchAll(origins, gridPoints, provider, n)
  {
    if n < more {
      FetchAllErrPersists(origins, gridPoints, provider, n, more - 1);
    }
  }

  /** `starts = [tuple_to_dict(start) for start in starts]`. */
  function Origins(starts: seq<(real, real)>): (os: seq<Coord>)
    ensures |os| == |starts|
    ensures forall i :: 0 <= i < |starts| ==> os[i].lat == starts[i].0 && os[i].lon == starts[i].1
  {
    seq(|starts|, i requires 0 <= i < |starts| => TupleToDict(starts[i]))
  }

  /** What `get_grid_times(starts, average_mode)` returns or raises, given the grid
      points it loads, the routing service and the interpolator. */
  function GridTimesSpec(starts: seq<(real, real)>, mode: string, gridPoints: seq<Coord>,
                         provider: Fetch.Provider, interp: Cells.Interpolator): Result<seq<Timed<real>>>
  {
    var origins := Origins(starts);
    match FetchAll(origins, gridPoints, provider, |origins|)
    case Err(e) => Err(e)
    case Ok(times) =>
      match Combine(times, mode)
      case Err(e) => Err(e)
      case Ok(combined) =>
        match Reshape(SortByKey(combined), GridSize)
        case Err(e) => Err(e)
        case Ok(m) =>
          match Walk(CellGrids(m, GridSize, interp), GridSize - 1, GridSize - 1)
          case Err(e) => Err(e)
          case Ok(items) => Dedupe(items)
  }

  /** `times = [get_time_for_dests(start, grid_points) for start in starts]`. */
  method FetchTimes(origins: seq<Coord>, gridPoints: seq<Coord>, provider: Fetch.Provider)
    returns (r: Result<seq<seq<Timed<int>>>>)
    ensures r == FetchAll(origins, gridPoints, provider, |origins|)
  {
    var times: seq<seq<Timed<int>>> := [];
    for i := 0 to |origins|
      invariant FetchAll(origins, gridPoints, provider, i) == Ok(times)
    {
      var t := Fetch.GetTimeForDests(origins[i], gridPoints, provider);
      if t.Err? {
        r := Err(t.error);
        FetchAllErrPersists(origins, gridPoints, provider, i + 1, |origins|);
        return;
      }
      times := times + [t.value];
    }
    r := Ok(times);
  }

  /** The branch on the number of origins and the mode, up to the list handed to `sorted`. */
  method CombineTimes(times: seq<seq<Timed<int>>>, mode: string) returns (r: Result<seq<Timed<real>>>)
    ensures r == Combine(times, mode)
  {
    if |times| != 1 {
      if mode == "max" {
        var maxed := Aggregate.ComputeMaxDuration(times);
        r := Ok(AsReal(maxed));
      } else if mode == "average" {
        var averaged := Aggregate.ComputeAverageDuration(times);
        r := Ok(averaged);
      } else if |times| == 0 {
        r := Ok([]);
      } else {
        r := if times[0] == [] then Err(IndexOutOfRange) else Err(BadSortOperand);
      }
    } else {
      r := Ok(AsReal(times[0]));
    }
  }

  /** `get_grid_times`, statement by statement. */
  method GetGridTimes(starts: seq<(real, real)>, mode: string, gridPoints: seq<Coord>,
                      provider: Fetch.Provider, interp: Cells.Interpolator)
    returns (r: Result<seq<Timed<real>>>)
    ensures r == GridTimesSpec(starts, mode, gridPoints, provider, interp)
  {
    var origins := Origins(starts);
    var fetched := FetchTimes(origins, gridPoints, provider);
    if fetched.Err? {
      r := Err(fetched.error);
      return;
    }
    var combinedOr := CombineTimes(fetched.value, mode);
    if combinedOr.Err? {
      r := Err(combinedOr.error);
      return;
    }
    var combined := combinedOr.value;
    var sorted := SortByKey(combined);
    var reshaped := Reshape(sorted, GridSize);
    if reshaped.Err? {
      r := Err(reshaped.error);
      return;
    }
    CellGridsAgree(reshaped.value, GridSize, interp);
    var newTimes := WalkCells(reshaped.value, GridSize, interp, CellGrids(reshaped.value, GridSize, interp));
    if newTimes.Err? {
      r := Err(newTimes.error);
      return;
    }
    r := Dedupe(newTimes.value);
  }

  // ---------------------------------------------------------------- properties of the whole call

  /** One origin skips aggregation whatever the mode; for a list naming each
      coordinate once, either aggregation would have given the same list. */
  lemma SingleOriginBypass(g: seq<Timed<int>>, mode: string)
    ensures Combine([g], mode) == Ok(AsReal(g))
    ensures Aggregate.DistinctKeys(g) ==>
      AsReal(Aggregate.MaxCombine([g])) == AsReal(g) && Aggregate.MeanCombine([g]) == AsReal(g)
  {
    if Aggregate.DistinctKeys(g) {
      Aggregate.SingleListMax(g);
      Aggregate.SingleListMean(g);
    }
  }

  /** With no origin nothing reaches the sort, and the reshape to 38 x 38 fails. */
  lemma NoOrigins(mode: string, gridPoints: seq<Coord>, provider: Fetch.Provider, interp: Cells.Interpolator)
    ensures GridTimesSpec([], mode, gridPoints, provider, interp) == Err(ReshapeMismatch)
  {
  }

  /** Unless the combined list holds exactly 38² points, the call raises at the reshape. */
  lemma NeedsFullGrid(starts: seq<(real, real)>, mode: string, gridPoints: seq<Coord>,
                      provider: Fetch.Provider, interp: Cells.Interpolator)
    requires FetchAll(Origins(starts), gridPoints, provider, |starts|).Ok?
    requires Combine(FetchAll(Origins(starts), gridPoints, provider, |starts|).value, mode).Ok?
    requires |Combine(FetchAll(Origins(starts), gridPoints, provider, |starts|).value, mode).value| != GridSize * GridSize
    ensures GridTimesSpec(starts, mode, gridPoints, provider, interp) == Err(ReshapeMismatch)
  {
  }

  /** A successful call returns distinct triples, at most `37² · 25` of them, and
      every one came out of some cell of the walk. */
  lemma GridTimesResult(starts: seq<(real, real)>, mode: string, gridPoints: seq<Coord>,
                        provider: Fetch.Provider, interp: Cells.Interpolator)
    requires GridTimesSpec(starts, mode, gridPoints, provider, interp).Ok?
    ensures var r := GridTimesSpec(starts, mode, gridPoints, provider, interp).value;
      && NoDups(r)
      && |r| <= (GridSize - 1) * (GridSize - 1) * (CellSteps * CellSteps)
      && FetchAll(Origins(starts), gridPoints, provider, |starts|).Ok?
      && Combine(FetchAll(Origins(starts), gridPoints, provider, |starts|).value, mode).Ok?
      && |Combine(FetchAll(Origins(starts), gridPoints, provider, |starts|).value, mode).value| == GridSize * GridSize
  {
    var m, items := GridTimesStages(starts, mode, gridPoints, provider, interp);
    WalkOutcome(m, GridSize, interp);
    DistinctBound(Dedupe(items).value, items);
  }

  /** The stages of a successful call: every fetch and the combination succeed,
      the sorted list reshapes into the matrix `m`, and the walk over its cells
      yields the `items` that the final `set` deduplicates. */
  lemma GridTimesStages(starts: seq<(real, real)>, mode: string, gridPoints: seq<Coord>,
                        provider: Fetch.Provider, interp: Cells.Interpolator)
    returns (m: seq<seq<Timed<real>>>, items: seq<Item>)
    requires GridTimesSpec(starts, mode, gridPoints, provider, interp).Ok?
    ensures FetchAll(Origins(starts), gridPoints, provider, |starts|).Ok?
    ensures Combine(FetchAll(Origins(starts), gridPoints, provider, |starts|).value, mode).Ok?
    ensures |Combine(FetchAll(Origins(starts), gridPoints, provider, |starts|).value, mode).value| == GridSize * GridSize
    ensures Square(m, GridSize) && Walk(CellGrids(m, GridSize, interp), GridSize - 1, GridSize - 1) == Ok(items)
    ensures GridTimesSpec(starts, mode, gridPoints, provider, interp) == Dedupe(items)
  {
    var fetched := FetchAll(Origins(starts), gridPoints, provider, |starts|);
    var combined := Combine(fetched.value, mode);
    var reshaped := Reshape(SortByKey(combined.value), GridSize);
    m := reshaped.value;
    items := Walk(CellGrids(m, GridSize, interp), GridSize - 1, GridSize - 1).value;
  }

  /** Distinct samples of `items` are no more than `items`. */
  lemma DistinctBound(r: seq<Timed<real>>, items: seq<Item>)
    requires NoDups(r) && forall t :: t in r ==> Sample(t) in items
    ensures |r| <= |items|
  {
    var samples := set t | t in r;
    var all := set x | x in items;
    assert |samples| == |r| by {
      DistinctCardinality(r);
    }
    var image := set t | t in samples :: Sample(t);
    SampleInjective(samples);
    SubsetCardinality(image, all);
    CardinalityOfSet(items);
  }

  lemma SubsetCardinality<T>(a: set<T>, b: set<T>)
    requires a <= b
    ensures |a| <= |b|
  {
    if a != {} {
      var x :| x in a;
      SubsetCardinality(a - {x}, b - {x});
    }
  }

  lemma {:induction false} DistinctCardinality<T>(r: seq<T>)
    requires NoDups(r)
    ensures |set t | t in r| == |r|
  {
    if r != [] {
      var init := r[..|r| - 1];
      assert NoDups(init);
      DistinctCardinality(init);
      assert (set t | t in r) == (set t | t in init) + {r[|r| - 1]};
    }
  }

  lemma SampleInjective(ts: set<Timed<real>>)
    ensures |set t | t in ts :: Sample(t)| == |ts|
  {
    if ts != {} {
      var t :| t in ts;
      SampleInjective(ts - {t});
      assert (set x | x in ts :: Sample(x)) == (set x | x in ts - {t} :: Sample(x)) + {Sample(t)};
    }
  }

  lemma {:induction false} CardinalityOfSet<T>(s: seq<T>)
    ensures |set x | x in s| <= |s|
  {
    if s != [] {
      var init := s[..|s| - 1];
      CardinalityOfSet(init);
      assert (set x | x in s) == (set x | x in init) + {s[|s| - 1]};
    }
  }

  /** A zero duration at any corner of any cell sends that cell down the
      dictionary branch of `build_grid`, and the final `set` then raises. */
  lemma ZeroDurationRaises(m: seq<seq<Timed<real>>>, g: nat, interp: Cells.Interpolator, r: nat, c: nat)
    requires Square(m, g) && r + 1 < g && c + 1 < g
    requires Walk(CellGrids(m, g, interp), g - 1, g - 1).Ok?
    requires m[r][c].dur == 0.0 || m[r][c + 1].dur == 0.0 || m[r + 1][c].dur == 0.0 || m[r + 1][c + 1].dur == 0.0
    ensures Dedupe(Walk(CellGrids(m, g, interp), g - 1, g - 1).value) == Err(UnhashableDict)
  {
    var cells, n := CellGrids(m, g, interp), g - 1;
    ZeroCornerUnvalued(m, g, interp, r, c);
    UnvaluedCellRaises(cells, n, r, c);
  }

  /** A cell with a zero corner duration yields dictionaries, if anything. */
  lemma ZeroCornerUnvalued(m: seq<seq<Timed<real>>>, g: nat, interp: Cells.Interpolator, r: nat, c: nat)
    requires Square(m, g) && r + 1 < g && c + 1 < g
    requires m[r][c].dur == 0.0 || m[r][c + 1].dur == 0.0 || m[r + 1][c].dur == 0.0 || m[r + 1][c + 1].dur == 0.0
    ensures CellGrids(m, g, interp)(r, c).Ok? ==>
      CellGrids(m, g, interp)(r, c).value.Unvalued? && |CellGrids(m, g, interp)(r, c).value.Points()| > 0
  {
    CellOutcome(m, g, interp, r, c);
  }

  /** One dictionary-valued cell in a successful walk makes the final `set` raise. */
  lemma UnvaluedCellRaises(cells: CellFn, n: nat, r: nat, c: nat)
    requires Walk(cells, n, n).Ok? && r < n && c < n
    requires cells(r, c).Ok? ==> cells(r, c).value.Unvalued? && |cells(r, c).value.Points()| > 0
    ensures Dedupe(Walk(cells, n, n).value) == Err(UnhashableDict)
  {
    WalkContains(cells, n, n, r, c);
    var its := Items(cells(r, c).value);
    assert its[0].Spot? && its[0] in its;
  }
}
