/**
 The static world of the maze game: the 800x600 playfield, the 13x16 maze
 grid with its 50-unit tiles, the wall sprites the grid produces, and the
 spawn table (player, items, exit, enemies) that every (re)start rebuilds.
 */
module World {

  /** A position in world coordinates. The engine keeps positions as floats;
      only comparisons and assignments are modelled, so `real` suffices. */
  datatype Point = Point(x: real, y: real)

  /** A grid cell, addressed by row (y) and column (x). */
  datatype Cell = Cell(row: nat, col: nat)

  const Width: real := 800.0
  const Height: real := 600.0
  const TileSize: nat := 50

  /** Cell kinds as written in the grid: 1 is a wall, 0 is open floor. */
  const WallTile: int := 1

  const Maze: seq<seq<int>> := [
    [1, 1, 1, 1, 1, 1, 1, 1, 1, 1, 1, 1, 1, 1, 1, 1],
    [1, 0, 0, 0, 1, 0, 0, 0, 0, 0, 0, 0, 0, 0, 0, 1],
    [1, 0, 1, 0, 1, 0, 1, 1, 1, 1, 1, 0, 1, 1, 0, 1],
    [1, 0, 1, 0, 0, 0, 1, 0, 0, 0, 0, 0, 0, 0, 0, 1],
    [1, 0, 1, 1, 1, 0, 1, 0, 1, 1, 1, 1, 1, 1, 0, 1],
    [1, 0, 0, 0, 1, 0, 0, 0, 0, 0, 0, 0, 0, 1, 0, 1],
    [1, 1, 1, 0, 1, 1, 1, 1, 1, 1, 1, 1, 0, 1, 0, 1],
    [1, 0, 0, 0, 0, 0, 0, 0, 0, 0, 0, 0, 0, 1, 0, 1],
    [1, 0, 1, 1, 1, 1, 1, 1, 1, 1, 1, 1, 0, 1, 0, 1],
    [1, 0, 0, 0, 0, 0, 0, 1, 0, 0, 0, 0, 0, 0, 0, 1],
    [1, 1, 1, 1, 1, 1, 0, 1, 1, 1, 1, 1, 1, 1, 0, 1],
    [1, 0, 0, 0, 0, 0, 0, 0, 0, 0, 0, 0, 0, 0, 0, 1],
    [1, 1, 1, 1, 1, 1, 1, 1, 1, 1, 1, 1, 1, 1, 1, 1]
  ]

  /** The centre of a tile: strictly inside it, equally far from its left and
      right edges and from its top and bottom edges. */
  function Centre(c: Cell): (p: Point)
    ensures (c.col * TileSize) as real < p.x < ((c.col + 1) * TileSize) as real
    ensures p.x - (c.col * TileSize) as real == ((c.col + 1) * TileSize) as real - p.x
    ensures (c.row * TileSize) as real < p.y < ((c.row + 1) * TileSize) as real
    ensures p.y - (c.row * TileSize) as real == ((c.row + 1) * TileSize) as real - p.y
  {
    Point((c.col * TileSize + TileSize / 2) as real, (c.row * TileSize + TileSize / 2) as real)
  }

  /** Distinct cells have distinct centres, so no two walls coincide. */
  lemma CentreInjective(a: Cell, b: Cell)
    requires Centre(a) == Centre(b)
    ensures a == b
  {
    assert (a.col * TileSize) as real == (b.col * TileSize) as real;
    assert (a.row * TileSize) as real == (b.row * TileSize) as real;
  }

  /** Row-major order, the order in which the grid is walked. */
  predicate Before(a: Cell, b: Cell)
  {
    a.row < b.row || (a.row == b.row && a.col < b.col)
  }

  predicate StrictlyOrdered(cells: seq<Cell>)
  {
    forall i, j :: 0 <= i < j < |cells| ==> Before(cells[i], cells[j])
  }

  /** The wall cells of row `r` with column below `upto`, left to right. */
  function RowWalls(row: seq<int>, r: nat, upto: nat): (cells: seq<Cell>)
    requires upto <= |row|
    ensures forall c :: c in cells <==> c.row == r && c.col < upto && row[c.col] == WallTile
    ensures forall i, j :: 0 <= i < j < |cells| ==> cells[i].col < cells[j].col
    ensures forall i :: 0 <= i < |cells| ==> cells[i].row == r
    decreases upto
  {
    if upto == 0 then []
    else
      var k := upto - 1;
      RowWalls(row, r, k) + (if row[k] == WallTile then [Cell(r, k)] else [])
  }

  /** The wall cells of the first `upto` rows of `maze`, in row-major order. */
  function GridWalls(maze: seq<seq<int>>, upto: nat): (cells: seq<Cell>)
    requires upto <= |maze|
    ensures forall c :: c in cells <==>
      c.row < upto && c.col < |maze[c.row]| && maze[c.row][c.col] == WallTile
    ensures forall i :: 0 <= i < |cells| ==> cells[i].row < upto
    ensures StrictlyOrdered(cells)
    decreases upto
  {
    if upto == 0 then []
    else
      var k := upto - 1;
      GridWalls(maze, k) + RowWalls(maze[k], k, |maze[k]|)
  }

  /** The cells that receive a wall sprite: exactly the 1-cells of the grid. */
  function WallCells(maze: seq<seq<int>>): seq<Cell>
  {
    GridWalls(maze, |maze|)
  }

  /** Every entry of `walls` is the centre of the matching entry of `cells`. */
  predicate CentresOf(walls: seq<Point>, cells: seq<Cell>)
  {
    |walls| == |cells| && forall i :: 0 <= i < |walls| ==> walls[i] == Centre(cells[i])
  }

  lemma CentresOfAppend(w1: seq<Point>, c1: seq<Cell>, w2: seq<Point>, c2: seq<Cell>)
    requires CentresOf(w1, c1) && CentresOf(w2, c2)
    ensures CentresOf(w1 + w2, c1 + c2)
  {
  }

  /** Walks one row left to right and creates a wall for every 1-cell. */
  method PlaceRow(row: seq<int>, r: nat) returns (walls: seq<Point>)
    ensures CentresOf(walls, RowWalls(row, r, |row|))
  {
    walls := [];
    var c := 0;
    while c < |row|
      invariant 0 <= c <= |row|
      invariant CentresOf(walls, RowWalls(row, r, c))
    {
      if row[c] == WallTile {
        walls := walls + [Centre(Cell(r, c))];
      }
      c := c + 1;
    }
  }

  /** Walks the grid row by row and column by column and creates one wall,
      centred on its tile, for every 1-cell: a 1-cell's centre is a wall,
      a 0-cell's centre is not, and no two walls coincide. */
  method PlaceWalls(maze: seq<seq<int>>) returns (walls: seq<Point>)
    ensures CentresOf(walls, WallCells(maze))
    ensures forall r, c :: 0 <= r < |maze| && 0 <= c < |maze[r]| ==>
      (Centre(Cell(r, c)) in walls <==> maze[r][c] == WallTile)
    ensures forall i, j :: 0 <= i < j < |walls| ==> walls[i] != walls[j]
  {
    walls := [];
    var r := 0;
    while r < |maze|
      invariant 0 <= r <= |maze|
      invariant CentresOf(walls, GridWalls(maze, r))
    {
      var rowWalls := PlaceRow(maze[r], r);
      CentresOfAppend(walls, GridWalls(maze, r), rowWalls, RowWalls(maze[r], r, |maze[r]|));
      walls := walls + rowWalls;
      r := r + 1;
    }
    WallsMatchGrid(maze, walls);
  }

  /** Centres of the wall cells mark exactly the 1-cells, each once. */
  lemma WallsMatchGrid(maze: seq<seq<int>>, walls: seq<Point>)
    requires CentresOf(walls, WallCells(maze))
    ensures forall r, c :: 0 <= r < |maze| && 0 <= c < |maze[r]| ==>
      (Centre(Cell(r, c)) in walls <==> maze[r][c] == WallTile)
    ensures forall i, j :: 0 <= i < j < |walls| ==> walls[i] != walls[j]
  {
    var cells := WallCells(maze);
    forall r, c | 0 <= r < |maze| && 0 <= c < |maze[r]|
      ensures Centre(Cell(r, c)) in walls <==> maze[r][c] == WallTile
    {
      if Centre(Cell(r, c)) in walls {
        var i :| 0 <= i < |walls| && walls[i] == Centre(Cell(r, c));
        CentreInjective(cells[i], Cell(r, c));
        assert cells[i] in cells;
      }
    }
    forall i, j | 0 <= i < j < |walls|
      ensures walls[i] != walls[j]
    {
      assert Before(cells[i], cells[j]);
      if walls[i] == walls[j] {
        CentreInjective(cells[i], cells[j]);
      }
    }
  }

  /** The identity of an item: its creation order in the group (0, 1, 2);
      it does not shift when an earlier item is destroyed. */
  type ItemId = nat

  datatype Item = Item(id: ItemId, pos: Point)

  const PlayerSpawn: Point := Point(75.0, 75.0)

  const ItemSpawns: seq<Item> := [
    Item(0, Point(150.0, 150.0)),
    Item(1, Point(450.0, 250.0)),
    Item(2, Point(650.0, 400.0))
  ]

  const ExitAt: Point := Point(750.0, 550.0)

  const EnemySpawns: seq<Point> := [
    Point(300.0, 300.0),
    Point(500.0, 100.0),
    Point(700.0, 500.0)
  ]

  /** The grid is 13 rows of 16 columns and holds only 0s and 1s. */
  lemma MazeShape()
    ensures |Maze| == 13
    ensures forall r :: 0 <= r < |Maze| ==> |Maze[r]| == 16
    ensures forall r, c :: 0 <= r < |Maze| && 0 <= c < |Maze[r]| ==> Maze[r][c] == 0 || Maze[r][c] == 1
  {
  }
}
