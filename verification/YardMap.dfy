/**
 The yard map that an AI sees: the unit definition's grid of cells, turned to one of the
 four facings by index arithmetic.
 */
module YardMap {

  // ---------------------------------------------------------------- grids and quarter turns

  /** A grid of cells by rows. */
  datatype Grid = Grid(width: nat, height: nat, rows: seq<seq<int>>) {
    predicate Valid() {
      |rows| == height && forall z :: 0 <= z < height ==> |rows[z]| == width
    }
  }

  /** The quarter turn: a column from its bottom up becomes a row. */
  function Turn(g: Grid): (r: Grid)
    requires g.Valid()
    ensures r.Valid() && r.width == g.height && r.height == g.width
  {
    Grid(g.height, g.width,
         seq(g.width, z requires 0 <= z < g.width =>
           seq(g.height, x requires 0 <= x < g.height => g.rows[x][g.width - 1 - z])))
  }

  function Turns(g: Grid, n: nat): (r: Grid)
    requires g.Valid()
    ensures r.Valid()
  {
    if n == 0 then g else Turn(Turns(g, n - 1))
  }

  lemma {:induction false} TurnsSize(g: Grid, n: nat)
    requires g.Valid()
    ensures var r := Turns(g, n);
            (r.width == g.width && r.height == g.height) || (r.width == g.height && r.height == g.width)
    ensures n == 1 || n == 3 ==> Turns(g, n).width == g.height && Turns(g, n).height == g.width
    ensures n == 0 || n == 2 ==> Turns(g, n).width == g.width && Turns(g, n).height == g.height
  {
    if n > 0 {
      TurnsSize(g, n - 1);
    }
  }

  lemma {:induction false} TurnsAdd(g: Grid, m: nat, n: nat)
    requires g.Valid()
    ensures Turns(Turns(g, m), n) == Turns(g, m + n)
  {
    if n > 0 {
      TurnsAdd(g, m, n - 1);
    }
  }

  predicate Inside(g: Grid, x: int, z: int) {
    0 <= x < g.width && 0 <= z < g.height
  }

  lemma OneMoreTurn(g: Grid, n: nat, x: int, z: int)
    requires g.Valid() && Inside(Turns(g, n + 1), x, z)
    ensures Inside(Turns(g, n), Turns(g, n).width - 1 - z, x)
    ensures Turns(g, n + 1).rows[z][x] == Turns(g, n).rows[x][Turns(g, n).width - 1 - z]
  {
  }

  function HalfTurned(g: Grid): (r: Grid)
    requires g.Valid()
    ensures r.Valid() && r.width == g.width && r.height == g.height
    ensures r == Turns(g, 2)
  {
    assert Turns(g, 1) == Turn(Turns(g, 0));
    Turn(Turn(g))
  }

  lemma HalfTurn(g: Grid, x: int, z: int)
    requires g.Valid() && Inside(g, x, z)
    ensures HalfTurned(g).rows[z][x] == g.rows[g.height - 1 - z][g.width - 1 - x]
  {
  }

  lemma SameGridByCells(g: Grid, h: Grid)
    requires g.Valid() && h.Valid() && g.width == h.width && g.height == h.height
    requires forall x, z :: Inside(g, x, z) ==> g.rows[z][x] == h.rows[z][x]
    ensures g == h
  {
    forall z | 0 <= z < g.height
      ensures g.rows[z] == h.rows[z]
    {
      assert forall x :: 0 <= x < g.width ==> Inside(g, x, z);
    }
    assert g.rows == h.rows;
  }

  lemma TwoHalfTurns(g: Grid)
    requires g.Valid()
    ensures HalfTurned(HalfTurned(g)) == g
  {
    var half := HalfTurned(g);
    forall x, z | Inside(g, x, z)
      ensures HalfTurned(half).rows[z][x] == g.rows[z][x]
    {
      HalfTurn(half, x, z);
      HalfTurn(g, g.width - 1 - x, g.height - 1 - z);
    }
    SameGridByCells(g, HalfTurned(half));
  }

  /** Four quarter turns give the grid back. */
  lemma FourTurns(g: Grid)
    requires g.Valid()
    ensures Turns(g, 4) == g
  {
    TurnsAdd(g, 2, 2);
    TwoHalfTurns(g);
  }

  lemma {:induction false} DropFour(g: Grid, n: nat)
    requires g.Valid()
    ensures Turns(g, n + 4) == Turns(g, n)
  {
    FourTurns(g);
    TurnsAdd(g, 4, n);
  }

  /** Facings compose as the cyclic group of order four: turning to one, then to another, adds them. */
  lemma FacingsCompose(g: Grid, first: nat, second: nat)
    requires g.Valid() && first < 4 && second < 4
    ensures Turns(Turns(g, first), second) == Turns(g, if first + second < 4 then first + second else first + second - 4)
  {
    TurnsAdd(g, first, second);
    var sum := first + second;
    if sum >= 4 {
      DropFour(g, sum - 4);
    }
  }

  // ---------------------------------------------------------------- the index arithmetic

  const FACING_SOUTH := 0
  const FACING_EAST := 1
  const FACING_NORTH := 2
  const FACING_WEST := 3

  datatype Int2 = Int2(x: int, y: int)

  /** What the switch over the facing sets: two unit directions, the row width, where cell 0 goes. */
  datatype Frame = Frame(xdir: Int2, zdir: Int2, rowWidth: nat, startIdx: int) {
    function Index(x: int, z: int): int {
      startIdx + (xdir.x * x + xdir.y * z) + (zdir.x * x + zdir.y * z) * rowWidth
    }
  }

  function FrameOf(facing: nat, xsize: nat, zsize: nat): Frame {
    if facing == FACING_SOUTH then Frame(Int2(1, 0), Int2(0, 1), xsize, 0)
    else if facing == FACING_NORTH then Frame(Int2(-1, 0), Int2(0, -1), xsize, xsize * zsize - 1)
    else if facing == FACING_EAST then Frame(Int2(0, 1), Int2(-1, 0), zsize, (xsize - 1) * zsize)
    else Frame(Int2(0, -1), Int2(1, 0), zsize, zsize - 1)
  }

  /** The column and row that a cell moves to, and the cell that a place comes from. */
  function Place(facing: nat, xsize: nat, zsize: nat, x: int, z: int): (int, int) {
    if facing == FACING_NORTH then (xsize - 1 - x, zsize - 1 - z)
    else if facing == FACING_EAST then (z, xsize - 1 - x)
    else if facing == FACING_WEST then (zsize - 1 - z, x)
    else (x, z)
  }

  function Origin(facing: nat, xsize: nat, zsize: nat, col: int, row: int): (int, int) {
    if facing == FACING_NORTH then (xsize - 1 - col, zsize - 1 - row)
    else if facing == FACING_EAST then (xsize - 1 - row, col)
    else if facing == FACING_WEST then (row, zsize - 1 - col)
    else (col, row)
  }

  /** The cell that a place comes from after one more turn. */
  lemma OriginStep(less: nat, width: nat, height: nat, col: int, row: int)
    requires less < 3
    ensures Origin(less + 1, width, height, col, row) ==
            Origin(less, width, height, (if less == 1 then height else width) - 1 - row, col)
  {
  }

  lemma OriginInside(g: Grid, facing: nat, col: int, row: int)
    requires g.Valid() && facing < 4 && Inside(Turns(g, facing), col, row)
    ensures var c := Origin(facing, g.width, g.height, col, row); Inside(g, c.0, c.1)
  {
    TurnsSize(g, facing);
  }

  /** The turned grid has at each place the cell that the place comes from. */
  lemma {:induction false} TurnedCell(g: Grid, facing: nat, col: int, row: int)
    requires g.Valid() && facing < 4 && Inside(Turns(g, facing), col, row)
    ensures var c := Origin(facing, g.width, g.height, col, row);
            Inside(g, c.0, c.1) && Turns(g, facing).rows[row][col] == g.rows[c.1][c.0]
  {
    OriginInside(g, facing, col, row);
    if facing > 0 {
      var less := facing - 1;
      TurnsSize(g, less);
      OneMoreTurn(g, less, col, row);
      OriginStep(less, g.width, g.height, col, row);
      TurnedCell(g, less, Turns(g, less).width - 1 - row, col);
    }
  }

  lemma IndexIsPlace(facing: nat, xsize: nat, zsize: nat, x: int, z: int)
    requires facing < 4
    ensures var f, p := FrameOf(facing, xsize, zsize), Place(facing, xsize, zsize, x, z);
            f.Index(x, z) == p.0 + p.1 * f.rowWidth
  {
    if facing == FACING_NORTH {
      assert (zsize - 1 - z) * xsize == xsize * zsize - xsize - z * xsize;
      assert -1 * z * xsize == -(z * xsize);
    } else if facing == FACING_EAST {
      assert (xsize - 1 - x) * zsize == (xsize - 1) * zsize - x * zsize;
    }
  }

  // ---------------------------------------------------------------- rows stored one after the other

  lemma InBuffer(col: int, row: int, width: int, height: int)
    requires 0 <= col < width && 0 <= row < height
    ensures 0 <= col + row * width < width * height
  {
    assert (row + 1) * width <= height * width;
  }

  /** Every index below width * height is one column and one row. */
  lemma ColumnAndRow(i: int, width: int, height: int)
    requires width > 0 && 0 <= i < width * height
    ensures 0 <= i % width < width && 0 <= i / width < height && i == i % width + (i / width) * width
  {
    var q := i / width;
    assert q >= height ==> q * width >= height * width;
  }

  lemma OneColumnAndRow(col: int, row: int, col': int, row': int, width: int)
    requires 0 <= col < width && 0 <= col' < width && col + row * width == col' + row' * width
    ensures col == col' && row == row'
  {
    var d := row' - row;
    assert d * width == row' * width - row * width;
    assert d >= 1 ==> (d - 1) * width >= 0;
    assert d <= -1 ==> (-d - 1) * width >= 0;
  }

  /** The grid that a buffer of rows stands for. */
  ghost function GridOf(cells: seq<int>, width: nat, height: nat): (g: Grid)
    requires |cells| == width * height
    ensures g.Valid() && g.width == width && g.height == height
  {
    Grid(width, height, seq(height, z requires 0 <= z < height =>
      seq(width, x requires 0 <= x < width => InBuffer(x, z, width, height); cells[x + z * width])))
  }

  lemma SameGrid(cells: seq<int>, g: Grid)
    requires g.Valid() && |cells| == g.width * g.height
    requires forall col, row :: Inside(g, col, row) ==> Holds(cells, g, col, row)
    ensures GridOf(cells, g.width, g.height) == g
  {
    forall x, z | Inside(g, x, z)
      ensures GridOf(cells, g.width, g.height).rows[z][x] == g.rows[z][x]
    {
      assert Holds(cells, g, x, z);
    }
    SameGridByCells(g, GridOf(cells, g.width, g.height));
  }

  ghost predicate Holds(cells: seq<int>, g: Grid, col: int, row: int)
    requires g.Valid() && Inside(g, col, row)
  {
    var i := col + row * g.width;
    0 <= i < |cells| && cells[i] == g.rows[row][col]
  }

  // ---------------------------------------------------------------- the loops

  lemma IndexInRange(facing: nat, xsize: nat, zsize: nat, x: int, z: int)
    requires facing < 4 && 0 <= x < xsize && 0 <= z < zsize
    ensures 0 <= FrameOf(facing, xsize, zsize).Index(x, z) < xsize * zsize
  {
    var p := Place(facing, xsize, zsize, x, z);
    IndexIsPlace(facing, xsize, zsize, x, z);
    if facing % 2 == 0 {
      InBuffer(p.0, p.1, xsize, zsize);
    } else {
      InBuffer(p.0, p.1, zsize, xsize);
    }
  }

  /** No two cells have the same index: the loop writes each place once. */
  lemma IndexIsInjective(facing: nat, xsize: nat, zsize: nat, x: int, z: int, x': int, z': int)
    requires facing < 4 && 0 <= x < xsize && 0 <= z < zsize && 0 <= x' < xsize && 0 <= z' < zsize
    requires FrameOf(facing, xsize, zsize).Index(x, z) == FrameOf(facing, xsize, zsize).Index(x', z')
    ensures x == x' && z == z'
  {
    var p, p' := Place(facing, xsize, zsize, x, z), Place(facing, xsize, zsize, x', z');
    IndexIsPlace(facing, xsize, zsize, x, z);
    IndexIsPlace(facing, xsize, zsize, x', z');
    OneColumnAndRow(p.0, p.1, p'.0, p'.1, FrameOf(facing, xsize, zsize).rowWidth);
  }

  /** Every index below xsize * zsize belongs to a cell: the loop leaves no place unwritten. */
  lemma IndexIsSurjective(facing: nat, xsize: nat, zsize: nat, i: int)
    requires facing < 4 && 0 <= i < xsize * zsize
    ensures exists x, z :: 0 <= x < xsize && 0 <= z < zsize && FrameOf(facing, xsize, zsize).Index(x, z) == i
  {
    var f := FrameOf(facing, xsize, zsize);
    var width, height := if facing % 2 == 0 then xsize else zsize, if facing % 2 == 0 then zsize else xsize;
    assert width * height == xsize * zsize && width > 0;
    ColumnAndRow(i, width, height);
    var c := Origin(facing, xsize, zsize, i % width, i / width);
    IndexIsPlace(facing, xsize, zsize, c.0, c.1);
    assert Place(facing, xsize, zsize, c.0, c.1) == (i % width, i / width);
    assert f.Index(c.0, c.1) == i;
  }

  /** The asserted bound holds in every pass exactly when the buffer has room for all cells. */
  lemma RoomForAllCells(facing: nat, xsize: nat, zsize: nat, size: int)
    requires facing < 4 && xsize > 0 && zsize > 0
    ensures (forall x, z :: 0 <= x < xsize && 0 <= z < zsize ==> 0 <= FrameOf(facing, xsize, zsize).Index(x, z) < size)
            <==> xsize * zsize <= size
  {
    forall x, z | 0 <= x < xsize && 0 <= z < zsize
      ensures 0 <= FrameOf(facing, xsize, zsize).Index(x, z) < xsize * zsize
    {
      IndexInRange(facing, xsize, zsize, x, z);
    }
    InBuffer(0, 0, xsize, zsize);
    IndexIsSurjective(facing, xsize, zsize, xsize * zsize - 1);
  }

  /** The cells written after some rows and part of the next one are in place. */
  ghost predicate WrittenUpTo(buffer: seq<int>, cells: seq<int>, facing: nat, xsize: nat, zsize: nat, x: int, z: int)
    requires |cells| == xsize * zsize
  {
    forall a, b :: 0 <= a < xsize && 0 <= b < zsize && (b < z || (b == z && a < x)) ==>
      CellMoved(buffer, cells, FrameOf(facing, xsize, zsize), xsize, a, b)
  }

  ghost predicate CellMoved(buffer: seq<int>, cells: seq<int>, f: Frame, xsize: nat, a: int, b: int) {
    var i, from := f.Index(a, b), a + b * xsize;
    0 <= i < |buffer| && 0 <= from < |cells| && buffer[i] == cells[from]
  }

  lemma WriteOne(buffer: seq<int>, cells: seq<int>, facing: nat, xsize: nat, zsize: nat, x: int, z: int)
    requires facing < 4 && |cells| == xsize * zsize && 0 <= x < xsize && 0 <= z < zsize
    requires WrittenUpTo(buffer, cells, facing, xsize, zsize, x, z)
    requires 0 <= FrameOf(facing, xsize, zsize).Index(x, z) < |buffer|
    ensures 0 <= x + z * xsize < |cells|
    ensures var i := FrameOf(facing, xsize, zsize).Index(x, z);
            WrittenUpTo(buffer[i := cells[x + z * xsize]], cells, facing, xsize, zsize, x + 1, z)
  {
    var f := FrameOf(facing, xsize, zsize);
    InBuffer(x, z, xsize, zsize);
    var i := f.Index(x, z);
    var next := buffer[i := cells[x + z * xsize]];
    forall a, b | 0 <= a < xsize && 0 <= b < zsize && (b < z || (b == z && a < x + 1))
      ensures CellMoved(next, cells, f, xsize, a, b)
    {
      if a != x || b != z {
        assert CellMoved(buffer, cells, f, xsize, a, b);
        if f.Index(a, b) == i {
          IndexIsInjective(facing, xsize, zsize, x, z, a, b);
        }
      }
    }
  }

  lemma PlacedCell(buffer: seq<int>, cells: seq<int>, facing: nat, xsize: nat, zsize: nat, col: int, row: int)
    requires facing < 4 && |cells| == xsize * zsize == |buffer|
    requires WrittenUpTo(buffer, cells, facing, xsize, zsize, 0, zsize)
    requires Inside(Turns(GridOf(cells, xsize, zsize), facing), col, row)
    ensures Holds(buffer, Turns(GridOf(cells, xsize, zsize), facing), col, row)
  {
    var g := GridOf(cells, xsize, zsize);
    TurnedCell(g, facing, col, row);
    TurnsSize(g, facing);
    var c := Origin(facing, xsize, zsize, col, row);
    IndexIsPlace(facing, xsize, zsize, c.0, c.1);
    assert CellMoved(buffer, cells, FrameOf(facing, xsize, zsize), xsize, c.0, c.1);
  }

  lemma TurnedRoom(g: Grid, facing: nat)
    requires g.Valid()
    ensures Turns(g, facing).width * Turns(g, facing).height == g.width * g.height
  {
    TurnsSize(g, facing);
  }

  lemma AllWrittenIsTurned(buffer: seq<int>, cells: seq<int>, facing: nat, xsize: nat, zsize: nat)
    requires facing < 4 && |cells| == xsize * zsize == |buffer|
    requires WrittenUpTo(buffer, cells, facing, xsize, zsize, 0, zsize)
    ensures var t := Turns(GridOf(cells, xsize, zsize), facing);
            |buffer| == t.width * t.height && GridOf(buffer, t.width, t.height) == t
  {
    var g := GridOf(cells, xsize, zsize);
    var t := Turns(g, facing);
    TurnedRoom(g, facing);
    forall col, row | Inside(t, col, row)
      ensures Holds(buffer, t, col, row)
    {
      PlacedCell(buffer, cells, facing, xsize, zsize, col, row);
    }
    SameGrid(buffer, t);
  }

  lemma RoomIfAllWritten(buffer: seq<int>, cells: seq<int>, facing: nat, xsize: nat, zsize: nat)
    requires facing < 4 && |cells| == xsize * zsize && WrittenUpTo(buffer, cells, facing, xsize, zsize, 0, zsize)
    ensures |cells| <= |buffer|
  {
    if xsize > 0 && zsize > 0 {
      forall x, z | 0 <= x < xsize && 0 <= z < zsize
        ensures 0 <= FrameOf(facing, xsize, zsize).Index(x, z) < |buffer|
      {
        assert CellMoved(buffer, cells, FrameOf(facing, xsize, zsize), xsize, x, z);
      }
      RoomForAllCells(facing, xsize, zsize, |buffer|);
    }
  }

  /**
   The nested loops of getYardMap: the buffer ends as the grid turned as often as the facing says. The
   assertion on the index stops the loops, in the end, exactly if the buffer is shorter than the grid.
   */
  method GetYardMap(cells: seq<int>, xsize: nat, zsize: nat, facing: nat, yardMap: array<int>, yardMapMaxSize: nat)
    returns (yardMapSize: nat, inRange: bool)
    requires facing < 4 && |cells| == xsize * zsize && yardMapMaxSize <= yardMap.Length
    modifies yardMap
    ensures yardMapSize == if |cells| < yardMapMaxSize then |cells| else yardMapMaxSize
    ensures inRange <==> |cells| <= yardMapMaxSize
    ensures inRange ==> var t := Turns(GridOf(cells, xsize, zsize), facing);
            |cells| == t.width * t.height && GridOf(yardMap[..|cells|], t.width, t.height) == t
    ensures yardMap[yardMapSize..] == old(yardMap[yardMapSize..])
  {
    yardMapSize := if |cells| < yardMapMaxSize then |cells| else yardMapMaxSize;
    var f := FrameOf(facing, xsize, zsize);
    for z := 0 to zsize
      invariant WrittenUpTo(yardMap[..yardMapSize], cells, facing, xsize, zsize, 0, z)
      invariant yardMap[yardMapSize..] == old(yardMap[yardMapSize..])
    {
      for x := 0 to xsize
        invariant WrittenUpTo(yardMap[..yardMapSize], cells, facing, xsize, zsize, x, z)
        invariant yardMap[yardMapSize..] == old(yardMap[yardMapSize..])
      {
        var xt := f.xdir.x * x + f.xdir.y * z;
        var zt := f.zdir.x * x + f.zdir.y * z;
        var idx := f.startIdx + xt + zt * f.rowWidth;
        assert idx == f.Index(x, z);
        IndexInRange(facing, xsize, zsize, x, z);
        if idx < 0 || idx >= yardMapSize {
          return yardMapSize, false;
        }
        WriteOne(yardMap[..yardMapSize], cells, facing, xsize, zsize, x, z);
        ghost var before := yardMap[..yardMapSize];
        yardMap[idx] := cells[x + z * xsize];
        assert yardMap[..yardMapSize] == before[idx := cells[x + z * xsize]];
      }
    }
    RoomIfAllWritten(yardMap[..yardMapSize], cells, facing, xsize, zsize);
    AllWrittenIsTurned(yardMap[..|cells|], cells, facing, xsize, zsize);
    return yardMapSize, true;
  }
}
