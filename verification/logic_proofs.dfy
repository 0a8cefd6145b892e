/** The walks of `Logic` agree with the reference rule of `Rays`: legality,
    enumeration and capture all mean what the rules of Reversi say. */
module LogicProofs {
  import opened Pieces
  import opened Logic
  import opened Rays

  /** Moving one more step along a ray. */
  lemma StepAhead(v: int, j: int, d: int)
    ensures v + j * d + d == v + (j + 1) * d
  {
  }

  /** The legality walk in one direction, resumed after `j` opponent pieces,
      succeeds exactly when a bracket of some length k >= j closes within the
      remaining budget. */
  lemma {:induction false} BracketsFrom(size: int, board: Board, color: Piece, c: Coord,
                                        dx: int, dy: int, j: nat, steps: nat, saw: bool)
    requires saw <==> j >= 1
    requires forall m | 1 <= m <= j :: PieceAt(size, board, c, dx, dy, m, Next(color))
    ensures Brackets(size, board, color, c.x + j * dx, c.y + j * dy, dx, dy, steps, saw)
            <==> exists k | j <= k < j + steps :: RunOf(size, board, color, c, dx, dy, k)
    decreases steps
  {
    var x, y := c.x + j * dx, c.y + j * dy;
    if steps > 0 {
      var nx, ny := x + dx, y + dy;
      StepAhead(c.x, j, dx);
      StepAhead(c.y, j, dy);
      var own := PieceAt(size, board, c, dx, dy, j + 1, color);
      var other := PieceAt(size, board, c, dx, dy, j + 1, Next(color));
      if InBounds(size, nx, ny) && Coord(nx, ny) in board && board[Coord(nx, ny)] != color {
        OtherIsNext(color, board[Coord(nx, ny)]);
        assert other;
        BracketsFrom(size, board, color, c, dx, dy, j + 1, steps - 1, true);
        if exists k | j <= k < j + steps :: RunOf(size, board, color, c, dx, dy, k) {
          var k :| j <= k < j + steps && RunOf(size, board, color, c, dx, dy, k);
          assert k != j by {
            assert !own;
          }
        }
      } else if InBounds(size, nx, ny) && Coord(nx, ny) in board && saw {
        assert own;
        assert RunOf(size, board, color, c, dx, dy, j);
      } else {
        assert !other;
        assert !(InBounds(size, nx, ny) && Coord(nx, ny) in board) ==> !own;
      }
    }
  }

  /** A full legality walk in one direction finds a bracket exactly when the
      reference rule says there is one; the step budget never cuts it short. */
  lemma BracketsMatchRun(size: int, board: Board, color: Piece, c: Coord, dx: int, dy: int)
    requires Unit(dx, dy)
    ensures Brackets(size, board, color, c.x, c.y, dx, dy, Steps(size), false)
            <==> exists k :: RunOf(size, board, color, c, dx, dy, k)
  {
    BracketsFrom(size, board, color, c, dx, dy, 0, Steps(size), false);
    assert c.x + 0 * dx == c.x && c.y + 0 * dy == c.y;
    forall k | RunOf(size, board, color, c, dx, dy, k)
      ensures 0 <= k < Steps(size)
    {
      StepBound(size, board, color, c, dx, dy, k);
    }
  }

  /** `IsLegalPlay` decides the rule of the game: an empty in-bounds cell from
      which some direction holds k >= 1 opponent pieces closed by an own piece. */
  lemma IsLegalPlayMatchesRule(size: int, board: Board, color: Piece, c: Coord)
    ensures IsLegalPlay(size, board, color, c) <==> Legal(size, board, color, c)
  {
    DirectionTable();
    forall i | 0 <= i < Directions
      ensures Brackets(size, board, color, c.x, c.y, DX[i], DY[i], Steps(size), false)
              <==> exists k :: RunOf(size, board, color, c, DX[i], DY[i], k)
    {
      BracketsMatchRun(size, board, color, c, DX[i], DY[i]);
    }
  }

  /** `LegalPlays` lists every cell the rule allows and nothing else, without
      repetition and in row-major order. */
  lemma LegalPlaysMatchRule(size: int, board: Board, color: Piece)
    ensures forall c :: c in LegalPlays(size, board, color) <==> Legal(size, board, color, c)
    ensures RowMajor(LegalPlays(size, board, color))
  {
    forall c ensures c in LegalPlays(size, board, color) <==> Legal(size, board, color, c) {
      IsLegalPlayMatchesRule(size, board, color, c);
    }
  }

  /** The capture walk in one direction, resumed after the opponent cells
      `run`: what it returns to flip is either nothing or a whole bracketed run,
      and a bracket that closes within the budget is never missed. */
  lemma {:induction false} CaptureFrom(size: int, board: Board, color: Piece, c: Coord,
                                       dx: int, dy: int, j: nat, steps: nat, run: seq<Coord>)
    requires |run| == j
    requires forall m | 1 <= m <= j :: PieceAt(size, board, c, dx, dy, m, Next(color))
    requires forall m | 0 <= m < j :: OnRay(c, dx, dy, m + 1, run[m])
    requires forall p | p in run :: p in board && board[p] != color
    ensures var flip := Capture(size, board, color, c.x + j * dx, c.y + j * dy, dx, dy, steps, run);
            && (flip != [] ==> RunOf(size, board, color, c, dx, dy, |flip|))
            && (forall m | 0 <= m < |flip| :: OnRay(c, dx, dy, m + 1, flip[m]))
            && (forall k | j <= k < j + steps && RunOf(size, board, color, c, dx, dy, k) :: flip != [])
    decreases steps
  {
    var x, y := c.x + j * dx, c.y + j * dy;
    if steps > 0 {
      var nx, ny := x + dx, y + dy;
      StepAhead(c.x, j, dx);
      StepAhead(c.y, j, dy);
      var own := PieceAt(size, board, c, dx, dy, j + 1, color);
      var other := PieceAt(size, board, c, dx, dy, j + 1, Next(color));
      if InBounds(size, nx, ny) && Coord(nx, ny) in board && board[Coord(nx, ny)] != color {
        OtherIsNext(color, board[Coord(nx, ny)]);
        assert other;
        var run' := run + [Coord(nx, ny)];
        assert forall m | 0 <= m < j + 1 :: OnRay(c, dx, dy, m + 1, run'[m]);
        CaptureFrom(size, board, color, c, dx, dy, j + 1, steps - 1, run');
        forall k | j <= k < j + steps && RunOf(size, board, color, c, dx, dy, k)
          ensures j + 1 <= k
        {
          assert !own;
        }
      } else if InBounds(size, nx, ny) && Coord(nx, ny) in board {
        assert own;
        if j >= 1 {
          assert RunOf(size, board, color, c, dx, dy, j);
        } else {
          forall k | j <= k < j + steps
            ensures !RunOf(size, board, color, c, dx, dy, k)
          {
            assert !other;
          }
        }
      } else {
        assert !other;
        assert !own;
      }
    }
  }

  /** The cells the capture walk returns for direction `i` are exactly the
      cells the reference rule flips in that direction. */
  lemma CaptureMatchesRule(size: int, board: Board, color: Piece, c: Coord, i: int)
    requires 0 <= i < Directions
    ensures forall p :: p in Capture(size, board, color, c.x, c.y, DX[i], DY[i], Steps(size), [])
                        <==> FlipsIn(size, board, color, c, i, p)
  {
    DirectionTable();
    var dx, dy := DX[i], DY[i];
    CaptureFrom(size, board, color, c, dx, dy, 0, Steps(size), []);
    assert c.x + 0 * dx == c.x && c.y + 0 * dy == c.y;
    var flip := Capture(size, board, color, c.x, c.y, dx, dy, Steps(size), []);
    forall p ensures p in flip <==> FlipsIn(size, board, color, c, i, p) {
      if p in flip {
        var m :| 0 <= m < |flip| && flip[m] == p;
        assert OnRay(c, dx, dy, m + 1, p);
        assert RunOf(size, board, color, c, dx, dy, |flip|);
      }
      if FlipsIn(size, board, color, c, i, p) {
        var k, m :| 1 <= m <= k && RunOf(size, board, color, c, dx, dy, k) && OnRay(c, dx, dy, m, p);
        StepBound(size, board, color, c, dx, dy, k);
        RunUnique(size, board, color, c, dx, dy, k, |flip|);
        assert OnRay(c, dx, dy, m, flip[m - 1]);
        assert flip[m - 1] == p;
      }
    }
  }

  /** Two boards that agree on every cell of a ray bracket the same runs on it. */
  lemma FlipsInFrame(size: int, b1: Board, b2: Board, color: Piece, c: Coord, i: int)
    requires 0 <= i < Directions
    requires forall m, q | 1 <= m ::
               PieceAt(size, b1, c, DX[i], DY[i], m, q) == PieceAt(size, b2, c, DX[i], DY[i], m, q)
    ensures forall p :: FlipsIn(size, b1, color, c, i, p) <==> FlipsIn(size, b2, color, c, i, p)
  {
    forall k ensures RunOf(size, b1, color, c, DX[i], DY[i], k) <==> RunOf(size, b2, color, c, DX[i], DY[i], k) {
    }
  }

  /** The invariant of move application after the first `i` directions: the
      placed piece is there and exactly the captures of those directions,
      computed on the original board, have been made. */
  ghost predicate AppliedBelow(size: int, board: Board, color: Piece, c: Coord, b: Board, i: int)
  {
    && b.Keys == board.Keys + {c}
    && b[c] == color
    && forall p | p in board && p != c ::
         b[p] == if FlippedBelow(size, board, color, c, i, p) then color else board[p]
  }

  /** While the first `i` directions are applied, the ray of direction `i` still
      looks as it did on the original board. */
  lemma RayUntouched(size: int, board: Board, color: Piece, c: Coord, b: Board, i: int)
    requires 0 <= i < Directions
    requires AppliedBelow(size, board, color, c, b, i)
    ensures forall m, q | 1 <= m ::
              PieceAt(size, b, c, DX[i], DY[i], m, q) == PieceAt(size, board, c, DX[i], DY[i], m, q)
  {
    DirectionTable();
    var dx, dy := DX[i], DY[i];
    forall m, q | 1 <= m
      ensures PieceAt(size, b, c, dx, dy, m, q) == PieceAt(size, board, c, dx, dy, m, q)
    {
      var x, y := c.x + m * dx, c.y + m * dy;
      if InBounds(size, x, y) {
        var p := Coord(x, y);
        assert OnRay(c, dx, dy, m, p);
        RayAvoidsOrigin(c, dx, dy, m, p);
        if p in board {
          assert !FlippedBelow(size, board, color, c, i, p) by {
            if FlippedBelow(size, board, color, c, i, p) {
              var i' :| 0 <= i' < i && FlipsIn(size, board, color, c, i', p);
              var k', m' :| 1 <= m' <= k' && RunOf(size, board, color, c, DX[i'], DY[i'], k')
                            && OnRay(c, DX[i'], DY[i'], m', p);
              RaysDisjoint(c, i', m', i, m, p);
            }
          }
        }
      }
    }
  }

  /** Applying direction `i` extends the invariant from `i` to `i + 1`. */
  lemma ApplyDirectionStep(size: int, board: Board, color: Piece, c: Coord, b: Board, i: int)
    requires 0 <= i < Directions
    requires AppliedBelow(size, board, color, c, b, i)
    ensures AppliedBelow(size, board, color, c,
              FlipAll(b, Capture(size, b, color, c.x, c.y, DX[i], DY[i], Steps(size), []), color), i + 1)
  {
    RayUntouched(size, board, color, c, b, i);
    FlipsInFrame(size, b, board, color, c, i);
    CaptureMatchesRule(size, b, color, c, i);
    var flip := Capture(size, b, color, c.x, c.y, DX[i], DY[i], Steps(size), []);
    var b' := FlipAll(b, flip, color);
    forall p | p in board && p != c
      ensures b'[p] == if FlippedBelow(size, board, color, c, i + 1, p) then color else board[p]
    {
      if FlipsIn(size, board, color, c, i, p) {
        assert FlippedBelow(size, board, color, c, i + 1, p);
      } else if FlippedBelow(size, board, color, c, i + 1, p) {
        var i' :| 0 <= i' < i + 1 && FlipsIn(size, board, color, c, i', p);
        assert FlippedBelow(size, board, color, c, i, p);
      }
    }
  }

  /** Directions `i` onward of move application finish what the earlier ones
      began: they end with the captures of all eight directions, each computed
      on the original board. */
  lemma {:induction false} ApplyDirectionsEffect(size: int, board: Board, color: Piece, c: Coord,
                                                 b: Board, i: nat)
    requires i <= Directions
    requires AppliedBelow(size, board, color, c, b, i)
    ensures AppliedBelow(size, board, color, c, ApplyDirections(size, b, color, c, i), Directions)
    decreases Directions - i
  {
    if i < Directions {
      ApplyDirectionStep(size, board, color, c, b, i);
      var flip := Capture(size, b, color, c.x, c.y, DX[i], DY[i], Steps(size), []);
      ApplyDirectionsEffect(size, board, color, c, FlipAll(b, flip, color), i + 1);
    }
  }

  /** The effect of a play, as the rules describe it: the piece is placed, no
      piece is removed, and an existing piece changes to `color` exactly when it
      lies inside a run bracketed from `c`; every other cell keeps its piece. */
  lemma ApplyPlayEffect(size: int, board: Board, color: Piece, c: Coord)
    ensures var r := ApplyPlay(size, board, color, c);
            && r.Keys == board.Keys + {c}
            && r[c] == color
            && forall p | p in board && p != c ::
                 r[p] == if Flipped(size, board, color, c, p) then color else board[p]
  {
    ApplyDirectionsEffect(size, board, color, c, board[c := color], 0);
    assert Flipped(size, board, color, c, c) ==> FlippedBelow(size, board, color, c, Directions, c);
  }

  /** A piece other than the one placed changes exactly when it is captured, and
      captured pieces were the opponent's. */
  lemma ApplyPlayChangesOnlyBrackets(size: int, board: Board, color: Piece, c: Coord, p: Coord)
    requires p in board && p != c
    ensures ApplyPlay(size, board, color, c)[p] != board[p] <==> Flipped(size, board, color, c, p)
    ensures Flipped(size, board, color, c, p) ==> board[p] == Next(color)
  {
    ApplyPlayEffect(size, board, color, c);
    if Flipped(size, board, color, c, p) {
      FlippedWasOpponent(size, board, color, c, Directions, p);
    }
  }

  /** A captured piece ends up in the mover's colour. */
  lemma ApplyPlayTurnsCaptured(size: int, board: Board, color: Piece, c: Coord, p: Coord)
    requires p in board && p != c
    requires Flipped(size, board, color, c, p)
    ensures ApplyPlay(size, board, color, c)[p] == color
  {
    ApplyPlayEffect(size, board, color, c);
  }

  /** A piece of the mover's colour is never turned. */
  lemma ApplyPlayKeepsOwn(size: int, board: Board, color: Piece, c: Coord, p: Coord)
    requires p in board && board[p] == color
    ensures ApplyPlay(size, board, color, c)[p] == color
  {
    ApplyPlayEffect(size, board, color, c);
  }

  /** A capture is reachable along exactly one of the eight directions. */
  lemma FlipDirectionUnique(size: int, board: Board, color: Piece, c: Coord, i1: int, i2: int, p: Coord)
    requires FlipsIn(size, board, color, c, i1, p) && FlipsIn(size, board, color, c, i2, p)
    ensures i1 == i2
  {
    var k1, m1 :| 1 <= m1 <= k1 && RunOf(size, board, color, c, DX[i1], DY[i1], k1) && OnRay(c, DX[i1], DY[i1], m1, p);
    var k2, m2 :| 1 <= m2 <= k2 && RunOf(size, board, color, c, DX[i2], DY[i2], k2) && OnRay(c, DX[i2], DY[i2], m2, p);
    RaysDisjoint(c, i1, m1, i2, m2, p);
  }

  /** A legal play brackets at least one piece, next to the played cell. */
  lemma LegalHasCapture(size: int, board: Board, color: Piece, c: Coord)
    requires Legal(size, board, color, c)
    ensures exists p, i | 0 <= i < Directions ::
              && OnRay(c, DX[i], DY[i], 1, p)
              && p in board && p != c && Flipped(size, board, color, c, p)
  {
    var i, k :| 0 <= i < Directions && RunOf(size, board, color, c, DX[i], DY[i], k);
    var dx, dy := DX[i], DY[i];
    DirectionTable();
    assert Unit(dx, dy);
    assert PieceAt(size, board, c, dx, dy, 1, Next(color));
    var p := Coord(c.x + 1 * dx, c.y + 1 * dy);
    assert OnRay(c, dx, dy, 1, p);
    assert p in board;
    assert FlipsIn(size, board, color, c, i, p);
    assert Flipped(size, board, color, c, p);
    RayAvoidsOrigin(c, dx, dy, 1, p);
  }

  /** A legal play captures at least one opponent piece. */
  lemma LegalPlayCaptures(size: int, board: Board, color: Piece, c: Coord)
    requires IsLegalPlay(size, board, color, c)
    ensures exists p :: p in board && board[p] == Next(color) && ApplyPlay(size, board, color, c)[p] == color
  {
    IsLegalPlayMatchesRule(size, board, color, c);
    LegalHasCapture(size, board, color, c);
    var p :| p in board && p != c && Flipped(size, board, color, c, p);
    ApplyPlayChangesOnlyBrackets(size, board, color, c, p);
    ApplyPlayEffect(size, board, color, c);
  }

  /** A subset has no more elements. */
  lemma SubsetCard<T>(a: set<T>, b: set<T>)
    requires a <= b
    ensures |a| <= |b|
    ensures a < b ==> |a| < |b|
  {
    assert b == a + (b - a);
  }

  /** A rewrite that adds the cell `c` as `color` and turns other cells only
      into `color` never raises the count of the opposite colour, and lowers it
      when one opponent piece is turned. */
  lemma RecolourCount(board: Board, r: Board, color: Piece, c: Coord)
    requires r.Keys == board.Keys + {c}
    requires r[c] == color
    requires forall p | p in board && p != c :: r[p] == color || r[p] == board[p]
    ensures Count(r, Next(color)) <= Count(board, Next(color))
    ensures (exists p :: p in board && board[p] == Next(color) && r[p] == color) ==>
              Count(r, Next(color)) < Count(board, Next(color))
  {
    var opp := Next(color);
    var after := set q | q in r && r[q] == opp;
    var before := set q | q in board && board[q] == opp;
    assert after <= before;
    SubsetCard(after, before);
    if exists p :: p in board && board[p] == opp && r[p] == color {
      var p :| p in board && board[p] == opp && r[p] == color;
      assert p in before && p !in after;
    }
  }

  /** Every value written is `color`, so the opponent never gains pieces; a legal
      play costs the opponent at least one. */
  lemma ApplyPlayOpponentCount(size: int, board: Board, color: Piece, c: Coord)
    ensures Count(ApplyPlay(size, board, color, c), Next(color)) <= Count(board, Next(color))
    ensures IsLegalPlay(size, board, color, c) ==>
              Count(ApplyPlay(size, board, color, c), Next(color)) < Count(board, Next(color))
  {
    var r := ApplyPlay(size, board, color, c);
    ApplyPlayEffect(size, board, color, c);
    if IsLegalPlay(size, board, color, c) {
      LegalPlayCaptures(size, board, color, c);
    }
    RecolourCount(board, r, color, c);
  }

  /** A play inside the grid keeps every piece inside the grid. */
  lemma ApplyPlayKeepsWellFormed(size: int, board: Board, color: Piece, c: Coord)
    requires WellFormed(size, board)
    requires InBounds(size, c.x, c.y)
    ensures WellFormed(size, ApplyPlay(size, board, color, c))
  {
  }
}
