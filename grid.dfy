/**
 * Geometry of the snake game: a 600x600 pixel window cut into 20-pixel
 * cells, the four movement directions, and the step a head takes.
 */
module Grid {

  const WindowWidth: int := 600
  const WindowHeight: int := 600
  const GridSize: int := 20

  /** Cells per row and per column: `window_width // grid_size`, which is 30.
      Python's floor division agrees with Dafny's on these positive operands. */
  const Columns: int := WindowWidth / GridSize
  const Rows: int := WindowHeight / GridSize

  /** The largest valid coordinates, used by the wall check. */
  const MaxX: int := Columns - 1
  const MaxY: int := Rows - 1

  /** A grid cell `(x, y)`; coordinates are unbounded integers, as in Python. */
  type Cell = (int, int)

  predicate InGrid(c: Cell) {
    0 <= c.0 <= MaxX && 0 <= c.1 <= MaxY
  }

  /** The four values `snake_direction` ever takes. */
  datatype Direction = Up | Down | Left | Right

  /** The `opposite_directions` table of the key handler. */
  function Opposite(d: Direction): Direction {
    match d
    case Up => Down
    case Down => Up
    case Left => Right
    case Right => Left
  }

  /** The cell one step from `c` in direction `d`; y grows downwards. */
  function NextHead(c: Cell, d: Direction): Cell {
    match d
    case Up => (c.0, c.1 - 1)
    case Down => (c.0, c.1 + 1)
    case Left => (c.0 - 1, c.1)
    case Right => (c.0 + 1, c.1)
  }

  /** Opposite is an involution without fixed points, and stepping back
      in the opposite direction returns to the start cell. */
  lemma OppositeUndoesStep(c: Cell, d: Direction)
    ensures Opposite(d) != d && Opposite(Opposite(d)) == d
    ensures NextHead(NextHead(c, d), Opposite(d)) == c
  {
  }

  predicate Distinct(s: seq<Cell>) {
    forall i, j :: 0 <= i < j < |s| ==> s[i] != s[j]
  }

  /** The grid is 30 cells wide and 30 cells high. */
  lemma GridIs30By30()
    ensures Columns == 30 && Rows == 30 && MaxX == 29 && MaxY == 29
  {
  }

  /** The cell numbered `k` when cells are counted row by row. */
  function CellAt(k: int): Cell {
    (k % 30, k / 30)
  }

  lemma CellAtInGrid(k: int)
    requires 0 <= k < 900
    ensures InGrid(CellAt(k))
  {
  }

  lemma CellAtInjective(i: int, j: int)
    requires CellAt(i) == CellAt(j)
    ensures i == j
  {
  }

  lemma CellAtNumbers(c: Cell)
    requires InGrid(c)
    ensures 0 <= c.0 + 30 * c.1 < 900 && CellAt(c.0 + 30 * c.1) == c
  {
  }

  /** Every cell of the grid exactly once, row by row. */
  function AllCells(): (cells: seq<Cell>)
    ensures |cells| == Columns * Rows
    ensures forall c :: InGrid(c) ==> c in cells
    ensures forall i :: 0 <= i < |cells| ==> InGrid(cells[i])
    ensures Distinct(cells)
  {
    GridIs30By30();
    var cells := seq(900, CellAt);
    assert forall i :: 0 <= i < 900 ==> InGrid(cells[i]) by {
      forall i | 0 <= i < 900 ensures InGrid(cells[i]) {
        CellAtInGrid(i);
      }
    }
    assert Distinct(cells) by {
      forall i, j | 0 <= i < j < 900 ensures cells[i] != cells[j] {
        if cells[i] == cells[j] {
          CellAtInjective(i, j);
        }
      }
    }
    assert forall c :: InGrid(c) ==> c in cells by {
      forall c | InGrid(c) ensures c in cells {
        CellAtNumbers(c);
        assert cells[c.0 + 30 * c.1] == c;
      }
    }
    cells
  }

  /** If `all` holds more distinct cells than `body` has entries, some cell
      of `all` is missing from `body`; `k` is its index. */
  lemma {:induction false} MissingCell(all: seq<Cell>, body: seq<Cell>) returns (k: nat)
    requires Distinct(all)
    requires |all| > |body|
    ensures k < |all| && all[k] !in body
    decreases |body|
  {
    if all[0] !in body {
      k := 0;
    } else {
      var i :| 0 <= i < |body| && body[i] == all[0];
      var rest := body[..i] + body[i + 1..];
      var tail := all[1..];
      assert Distinct(tail);
      var k' := MissingCell(tail, rest);
      k := k' + 1;
      assert all[k] == tail[k'] && all[k] != all[0];
      forall x | x in body && x != body[i]
        ensures x in rest
      {
        RemovalKeeps(body, i, x);
      }
    }
  }

  /** Removing entry `i` of `s` keeps every value different from `s[i]`. */
  lemma RemovalKeeps(s: seq<Cell>, i: nat, x: Cell)
    requires i < |s| && x in s && x != s[i]
    ensures x in s[..i] + s[i + 1..]
  {
  }

  /** The converse: 900 distinct grid cells are the whole grid, so no
      grid cell is left free. */
  lemma FullBodyCoversGrid(body: seq<Cell>)
    requires Distinct(body) && (forall i :: 0 <= i < |body| ==> InGrid(body[i]))
    requires |body| == Columns * Rows
    ensures forall c :: InGrid(c) ==> c in body
  {
    var all := AllCells();
    forall c | InGrid(c)
      ensures c in body
    {
      var j :| 0 <= j < |all| && all[j] == c;
      var others := all[..j] + all[j + 1..];
      if c !in body {
        forall x | x in body
          ensures x in others
        {
          RemovalKeeps(all, j, x);
        }
        var k := MissingCell(body, others);
      }
    }
  }

  /** Distinct grid cells number at most 900. */
  lemma DistinctCellsFit(body: seq<Cell>)
    requires Distinct(body) && (forall i :: 0 <= i < |body| ==> InGrid(body[i]))
    ensures |body| <= Columns * Rows
  {
    var all := AllCells();
    if |body| > |all| {
      var k := MissingCell(body, all);
    }
  }

  /** Pigeonhole: a snake of fewer than 900 entries leaves a grid cell free,
      which is exactly when food placement can succeed. */
  lemma FreeCellExists(body: seq<Cell>)
    requires |body| < Columns * Rows
    ensures exists c :: InGrid(c) && c !in body
  {
    var all := AllCells();
    var k := MissingCell(all, body);
    assert InGrid(all[k]) && all[k] !in body;
  }
}
