/** The rules engine of `Logic.kt`, as written: legality test, move application
    and enumeration of legal moves, all parameterised by the board size. */
module Logic {
  import opened Pieces

  /** The eight directions, walked in this order by both the legality test and
      move application. */
  const DX: seq<int> := [-1, 0, 1, -1, 1, -1, 0, 1]
  const DY: seq<int> := [-1, -1, -1, 0, 0, 1, 1, 1]

  /** Number of entries in the direction table. */
  const Directions: nat := 8

  predicate InBounds(size: int, x: int, y: int)
  {
    0 <= x < size && 0 <= y < size
  }

  /** Every piece on the board lies inside the grid. */
  predicate WellFormed(size: int, board: Board)
  {
    forall c | c in board :: InBounds(size, c.x, c.y)
  }

  /** How many cells each directional walk may visit: the loop
      `for (dd in 0..boardSize - 1)` runs `boardSize` times, or not at all. */
  function Steps(size: int): nat
  {
    if size > 0 then size else 0
  }

  /** One directional walk of the legality test, continued from cell (x, y)
      with `steps` iterations left; `sawOther` records whether an opponent
      piece has been passed. */
  function Brackets(size: int, board: Board, color: Piece, x: int, y: int,
                    dx: int, dy: int, steps: nat, sawOther: bool): bool
    decreases steps
  {
    if steps == 0 then false
    else
      var nx, ny := x + dx, y + dy;
      if !InBounds(size, nx, ny) then false
      else if Coord(nx, ny) !in board then false
      else if board[Coord(nx, ny)] != color then
        Brackets(size, board, color, nx, ny, dx, dy, steps - 1, true)
      else sawOther
  }

  /** Whether `color` may play at `coord`: the cell is inside the grid, empty,
      and some direction's walk closes a bracket. */
  function IsLegalPlay(size: int, board: Board, color: Piece, coord: Coord): (legal: bool)
    ensures legal ==> InBounds(size, coord.x, coord.y)
    ensures legal ==> coord !in board
  {
    InBounds(size, coord.x, coord.y) && coord !in board &&
    exists i | 0 <= i < Directions ::
      Brackets(size, board, color, coord.x, coord.y, DX[i], DY[i], Steps(size), false)
  }

  /** One directional walk of move application, continued from cell (x, y):
      the opponent cells passed so far are `run`; the result is the run to flip,
      which is empty unless an own piece closes it. */
  function Capture(size: int, board: Board, color: Piece, x: int, y: int,
                   dx: int, dy: int, steps: nat, run: seq<Coord>): (flip: seq<Coord>)
    requires forall c | c in run :: c in board && board[c] != color
    ensures forall c | c in flip :: c in board && board[c] != color
    decreases steps
  {
    if steps == 0 then []
    else
      var nx, ny := x + dx, y + dy;
      if !InBounds(size, nx, ny) then []
      else if Coord(nx, ny) !in board then []
      else if board[Coord(nx, ny)] != color then
        Capture(size, board, color, nx, ny, dx, dy, steps - 1, run + [Coord(nx, ny)])
      else run
  }

  /** Writes `color` into every cell of `run`, one after another. */
  function FlipAll(board: Board, run: seq<Coord>, color: Piece): (r: Board)
    ensures r.Keys == board.Keys + set c | c in run
    ensures forall c | c in r :: r[c] == if c in run then color else board[c]
    decreases |run|
  {
    if run == [] then board
    else FlipAll(board[run[0] := color], run[1..], color)
  }

  /** Directions `i` and onward of move application, each walking the board as
      the earlier directions left it. */
  function ApplyDirections(size: int, board: Board, color: Piece, coord: Coord, i: nat): (r: Board)
    requires i <= Directions
    ensures r.Keys == board.Keys
    ensures forall c | c in board && board[c] == color :: r[c] == color
    decreases Directions - i
  {
    if i == Directions then board
    else
      var flip := Capture(size, board, color, coord.x, coord.y, DX[i], DY[i], Steps(size), []);
      ApplyDirections(size, FlipAll(board, flip, color), color, coord, i + 1)
  }

  /** Places `color` at `coord` and flips every bracketed run. Legality is the
      caller's business and is not re-checked. */
  function ApplyPlay(size: int, board: Board, color: Piece, coord: Coord): (r: Board)
    ensures r.Keys == board.Keys + {coord}
    ensures r[coord] == color
  {
    ApplyDirections(size, board[coord := color], color, coord, 0)
  }

  /** Strict row-major order: y first, then x. */
  predicate Before(a: Coord, b: Coord)
  {
    a.y < b.y || (a.y == b.y && a.x < b.x)
  }

  predicate RowMajor(s: seq<Coord>)
  {
    forall i, j | 0 <= i < j < |s| :: Before(s[i], s[j])
  }

  /** The legal cells of row `y` from column `x` on, left to right. */
  function ScanRow(size: int, board: Board, color: Piece, y: nat, x: nat): (plays: seq<Coord>)
    ensures forall c :: c in plays <==> c.y == y && x <= c.x && IsLegalPlay(size, board, color, c)
    ensures forall i, j | 0 <= i < j < |plays| :: plays[i].x < plays[j].x
    decreases size - x
  {
    if x >= size then []
    else
      var coord := Coord(x, y);
      var here := if coord in board then []
                  else if IsLegalPlay(size, board, color, coord) then [coord]
                  else [];
      here + ScanRow(size, board, color, y, x + 1)
  }

  /** The legal cells of rows `y` onward, in row-major order. */
  function ScanRows(size: int, board: Board, color: Piece, y: nat): (plays: seq<Coord>)
    ensures forall c :: c in plays <==> y <= c.y && IsLegalPlay(size, board, color, c)
    ensures RowMajor(plays)
    decreases size - y
  {
    if y >= size then []
    else
      var row := ScanRow(size, board, color, y, 0);
      var rest := ScanRows(size, board, color, y + 1);
      assert forall i | 0 <= i < |row| :: row[i] in row;
      assert forall j | 0 <= j < |rest| :: rest[j] in rest;
      row + rest
  }

  /** Every legal play for `color`, scanning rows top to bottom and each row
      left to right. */
  function LegalPlays(size: int, board: Board, color: Piece): (plays: seq<Coord>)
    ensures forall c :: c in plays <==> IsLegalPlay(size, board, color, c)
    ensures RowMajor(plays)
    ensures forall i, j | 0 <= i < j < |plays| :: plays[i] != plays[j]
  {
    ScanRows(size, board, color, 0)
  }
}
