/** A reference description of the Reversi capture rule, stated without walks
    or step budgets: a bracket is k >= 1 opponent pieces in a straight line from
    the played cell, closed by a piece of the player's own colour. */
module Rays {
  import opened Pieces
  import opened Logic

  /** (dx, dy) is one of the eight king-move steps. */
  predicate Unit(dx: int, dy: int)
  {
    -1 <= dx <= 1 && -1 <= dy <= 1 && (dx != 0 || dy != 0)
  }

  /** The direction table lists each of the eight unit steps exactly once. */
  lemma DirectionTable()
    ensures |DX| == Directions && |DY| == Directions
    ensures forall i | 0 <= i < Directions :: Unit(DX[i], DY[i])
    ensures forall i, j | 0 <= i < j < Directions :: DX[i] != DX[j] || DY[i] != DY[j]
    ensures forall dx, dy | Unit(dx, dy) ::
              exists i :: 0 <= i < Directions && DX[i] == dx && DY[i] == dy
  {
    forall dx, dy | Unit(dx, dy)
      ensures exists i :: 0 <= i < Directions && DX[i] == dx && DY[i] == dy
    {
      var i := if dy == -1 then dx + 1 else if dy == 0 then (if dx == -1 then 3 else 4) else dx + 6;
      assert DX[i] == dx && DY[i] == dy;
    }
  }

  /** `p` is the cell `m` steps from `c` along (dx, dy). */
  ghost predicate OnRay(c: Coord, dx: int, dy: int, m: int, p: Coord)
  {
    p.x == c.x + m * dx && p.y == c.y + m * dy
  }

  /** The cell `m` steps from `c` along (dx, dy) is inside the grid and holds `p`. */
  ghost predicate PieceAt(size: int, board: Board, c: Coord, dx: int, dy: int, m: int, p: Piece)
  {
    var x, y := c.x + m * dx, c.y + m * dy;
    InBounds(size, x, y) && Coord(x, y) in board && board[Coord(x, y)] == p
  }

  /** Playing `color` at `c` brackets exactly `k` opponent pieces along (dx, dy):
      cells 1..k hold the opponent and cell k+1 holds `color`. */
  ghost predicate RunOf(size: int, board: Board, color: Piece, c: Coord, dx: int, dy: int, k: int)
  {
    && 1 <= k
    && (forall m | 1 <= m <= k :: PieceAt(size, board, c, dx, dy, m, Next(color)))
    && PieceAt(size, board, c, dx, dy, k + 1, color)
  }

  /** The rule of the game: an empty in-bounds cell that brackets a run in some
      direction of the table. */
  ghost predicate Legal(size: int, board: Board, color: Piece, c: Coord)
  {
    && InBounds(size, c.x, c.y)
    && c !in board
    && exists i, k | 0 <= i < Directions :: RunOf(size, board, color, c, DX[i], DY[i], k)
  }

  /** `p` lies inside the run bracketed along direction `i` of the table. */
  ghost predicate FlipsIn(size: int, board: Board, color: Piece, c: Coord, i: int, p: Coord)
  {
    && 0 <= i < Directions
    && exists k, m | 1 <= m <= k ::
         RunOf(size, board, color, c, DX[i], DY[i], k) && OnRay(c, DX[i], DY[i], m, p)
  }

  /** `p` lies inside a run bracketed along one of the first `n` directions. */
  ghost predicate FlippedBelow(size: int, board: Board, color: Piece, c: Coord, n: int, p: Coord)
  {
    exists i | 0 <= i < n :: FlipsIn(size, board, color, c, i, p)
  }

  /** `p` is captured when `color` plays at `c`. */
  ghost predicate Flipped(size: int, board: Board, color: Piece, c: Coord, p: Coord)
  {
    FlippedBelow(size, board, color, c, Directions, p)
  }

  /** A direction brackets at most one run. */
  lemma RunUnique(size: int, board: Board, color: Piece, c: Coord, dx: int, dy: int, k1: int, k2: int)
    requires RunOf(size, board, color, c, dx, dy, k1)
    requires RunOf(size, board, color, c, dx, dy, k2)
    ensures k1 == k2
  {
    assert k1 < k2 ==> PieceAt(size, board, c, dx, dy, k1 + 1, Next(color));
    assert k2 < k1 ==> PieceAt(size, board, c, dx, dy, k2 + 1, Next(color));
  }

  /** A bracket fits inside the grid, so the walk's budget of `size` steps is
      never what ends it. */
  lemma StepBound(size: int, board: Board, color: Piece, c: Coord, dx: int, dy: int, k: int)
    requires Unit(dx, dy)
    requires RunOf(size, board, color, c, dx, dy, k)
    ensures k < Steps(size)
  {
    assert PieceAt(size, board, c, dx, dy, 1, Next(color));
    assert PieceAt(size, board, c, dx, dy, k + 1, color);
    if dx != 0 {
      assert 0 <= c.x + dx < size && 0 <= c.x + (k + 1) * dx < size;
      if dx == 1 {
        assert (k + 1) * dx == k + 1;
      } else {
        assert (k + 1) * dx == -(k + 1);
      }
    } else {
      assert 0 <= c.y + dy < size && 0 <= c.y + (k + 1) * dy < size;
      if dy == 1 {
        assert (k + 1) * dy == k + 1;
      } else {
        assert (k + 1) * dy == -(k + 1);
      }
    }
  }

  /** Two unit steps scaled by positive amounts meet only if they are the same
      step scaled by the same amount. */
  lemma UnitScalesApart(dx1: int, dy1: int, m1: int, dx2: int, dy2: int, m2: int)
    requires Unit(dx1, dy1) && Unit(dx2, dy2)
    requires 1 <= m1 && 1 <= m2
    requires m1 * dx1 == m2 * dx2 && m1 * dy1 == m2 * dy2
    ensures dx1 == dx2 && dy1 == dy2 && m1 == m2
  {
    UnitScale(dx1, m1);
    UnitScale(dy1, m1);
    UnitScale(dx2, m2);
    UnitScale(dy2, m2);
  }

  /** Scaling a step component of -1, 0 or 1 by `m`. */
  lemma UnitScale(d: int, m: int)
    requires -1 <= d <= 1
    ensures m * d == if d == 1 then m else if d == -1 then -m else 0
  {
  }

  /** The eight rays from a cell are pairwise disjoint, and a ray reaches each of
      its cells at exactly one distance. */
  lemma RaysDisjoint(c: Coord, i1: int, m1: int, i2: int, m2: int, p: Coord)
    requires 0 <= i1 < Directions && 0 <= i2 < Directions
    requires 1 <= m1 && 1 <= m2
    requires OnRay(c, DX[i1], DY[i1], m1, p) && OnRay(c, DX[i2], DY[i2], m2, p)
    ensures i1 == i2 && m1 == m2
  {
    DirectionTable();
    UnitScalesApart(DX[i1], DY[i1], m1, DX[i2], DY[i2], m2);
  }

  /** No ray returns to its origin. */
  lemma RayAvoidsOrigin(c: Coord, dx: int, dy: int, m: int, p: Coord)
    requires Unit(dx, dy) && 1 <= m
    requires OnRay(c, dx, dy, m, p)
    ensures p != c
  {
    UnitScale(dx, m);
    UnitScale(dy, m);
  }

  /** A captured cell held an opponent piece. */
  lemma FlippedWasOpponent(size: int, board: Board, color: Piece, c: Coord, n: int, p: Coord)
    requires FlippedBelow(size, board, color, c, n, p)
    ensures p in board && board[p] == Next(color)
  {
    var i :| 0 <= i < n && FlipsIn(size, board, color, c, i, p);
    var k, m :| 1 <= m <= k && RunOf(size, board, color, c, DX[i], DY[i], k) && OnRay(c, DX[i], DY[i], m, p);
    assert PieceAt(size, board, c, DX[i], DY[i], m, Next(color));
    assert Coord(c.x + m * DX[i], c.y + m * DY[i]) == p;
  }
}
