/** Properties of the game flow: the standard 8x8 opening, the forced-pass and
    double-pass behaviour of the turn handler, and the invariant every reachable
    session keeps. */
module GameProofs {
  import opened Pieces
  import opened Logic
  import opened Rays
  import opened LogicProofs
  import opened Game

  /** Black's four opening moves, in row-major order. */
  const OpeningMoves: seq<Coord> := [Coord(3, 2), Coord(2, 3), Coord(5, 4), Coord(4, 5)]

  /** The 8x8 opening spelled out. */
  lemma OpeningPosition()
    ensures Opening(BoardSize) == map[Coord(3, 3) := WHITE, Coord(4, 3) := BLACK,
                                      Coord(3, 4) := BLACK, Coord(4, 4) := WHITE]
  {
  }

  /** Four distinct cells, two of each colour, count two of each colour. */
  lemma FourCellCounts(b: Board, w1: Coord, b1: Coord, b2: Coord, w2: Coord)
    requires w1 != w2 && b1 != b2
    requires b == map[w1 := WHITE, b1 := BLACK, b2 := BLACK, w2 := WHITE]
    requires w1 != b1 && w1 != b2 && w2 != b1 && w2 != b2
    ensures Count(b, BLACK) == 2 && Count(b, WHITE) == 2
  {
    assert (set c | c in b && b[c] == BLACK) == {b1, b2};
    assert (set c | c in b && b[c] == WHITE) == {w1, w2};
  }

  /** The opening puts two pieces of each colour on the board. */
  lemma OpeningCounts(size: int)
    requires size >= 2
    ensures Count(Opening(size), BLACK) == 2 && Count(Opening(size), WHITE) == 2
  {
    var half := size / 2;
    FourCellCounts(Opening(size), Coord(half - 1, half - 1), Coord(half, half - 1),
                   Coord(half - 1, half), Coord(half, half));
  }

  /** Which piece, if any, the 8x8 opening holds at (x, y). */
  predicate OpeningHolds(x: int, y: int, p: Piece)
  {
    if p == WHITE then (x == 3 && y == 3) || (x == 4 && y == 4)
    else (x == 4 && y == 3) || (x == 3 && y == 4)
  }

  /** The cells of the 8x8 opening and the piece on each. */
  lemma OpeningCells(size: int, q: Coord)
    requires size == BoardSize
    ensures q in Opening(size) <==> OpeningHolds(q.x, q.y, WHITE) || OpeningHolds(q.x, q.y, BLACK)
    ensures q in Opening(size) ==> OpeningHolds(q.x, q.y, Opening(size)[q])
  {
  }

  /** Reading a cell of the 8x8 opening. */
  lemma OpeningCellHolds(size: int, b: Board, x: int, y: int, p: Piece)
    requires size == BoardSize && b == Opening(size)
    ensures (InBounds(size, x, y) && Coord(x, y) in b && b[Coord(x, y)] == p) <==> OpeningHolds(x, y, p)
  {
    if x >= 0 && y >= 0 {
      OpeningCells(size, Coord(x, y));
    }
  }

  /** Where the first three cells of a ray on the 8x8 opening can hold white. */
  lemma OpeningRayWhite(size: int, b: Board, c: Coord, dx: int, dy: int)
    requires size == BoardSize && b == Opening(size)
    ensures PieceAt(size, b, c, dx, dy, 1, WHITE) ==> OpeningHolds(c.x + 1 * dx, c.y + 1 * dy, WHITE)
    ensures PieceAt(size, b, c, dx, dy, 2, WHITE) ==> OpeningHolds(c.x + 2 * dx, c.y + 2 * dy, WHITE)
    ensures PieceAt(size, b, c, dx, dy, 3, WHITE) ==> OpeningHolds(c.x + 3 * dx, c.y + 3 * dy, WHITE)
  {
    OpeningCellHolds(size, b, c.x + 1 * dx, c.y + 1 * dy, WHITE);
    OpeningCellHolds(size, b, c.x + 2 * dx, c.y + 2 * dy, WHITE);
    OpeningCellHolds(size, b, c.x + 3 * dx, c.y + 3 * dy, WHITE);
  }

  /** Where the second and third cells of a ray on the 8x8 opening can hold black. */
  lemma OpeningRayBlack(size: int, b: Board, c: Coord, dx: int, dy: int)
    requires size == BoardSize && b == Opening(size)
    ensures PieceAt(size, b, c, dx, dy, 2, BLACK) ==> OpeningHolds(c.x + 2 * dx, c.y + 2 * dy, BLACK)
    ensures PieceAt(size, b, c, dx, dy, 3, BLACK) ==> OpeningHolds(c.x + 3 * dx, c.y + 3 * dy, BLACK)
  {
    OpeningCellHolds(size, b, c.x + 2 * dx, c.y + 2 * dy, BLACK);
    OpeningCellHolds(size, b, c.x + 3 * dx, c.y + 3 * dy, BLACK);
  }

  /** A black bracket on any board whose first three ray cells read as on the
      8x8 opening is a single white piece next to a canonical cell. */
  lemma BlackRunsOn(size: int, b: Board, c: Coord, dx: int, dy: int, k: int)
    requires Unit(dx, dy)
    requires RunOf(size, b, BLACK, c, dx, dy, k)
    requires PieceAt(size, b, c, dx, dy, 1, WHITE) ==> OpeningHolds(c.x + 1 * dx, c.y + 1 * dy, WHITE)
    requires PieceAt(size, b, c, dx, dy, 2, WHITE) ==> OpeningHolds(c.x + 2 * dx, c.y + 2 * dy, WHITE)
    requires PieceAt(size, b, c, dx, dy, 3, WHITE) ==> OpeningHolds(c.x + 3 * dx, c.y + 3 * dy, WHITE)
    requires PieceAt(size, b, c, dx, dy, 2, BLACK) ==> OpeningHolds(c.x + 2 * dx, c.y + 2 * dy, BLACK)
    requires PieceAt(size, b, c, dx, dy, 3, BLACK) ==> OpeningHolds(c.x + 3 * dx, c.y + 3 * dy, BLACK)
    ensures k == 1
    ensures c in OpeningMoves
  {
    assert PieceAt(size, b, c, dx, dy, 1, Next(BLACK));
    assert k >= 2 ==> PieceAt(size, b, c, dx, dy, 2, Next(BLACK));
    assert k >= 3 ==> PieceAt(size, b, c, dx, dy, 3, Next(BLACK));
    assert k == 2 ==> PieceAt(size, b, c, dx, dy, 3, BLACK);
    assert k == 1 ==> PieceAt(size, b, c, dx, dy, 2, BLACK);
    OpeningLine(c.x, c.y, dx, dy, k);
  }

  /** On the 8x8 opening, every black bracket is a single white piece next to
      one of the four canonical cells. */
  lemma OpeningBlackRuns(size: int, b: Board, c: Coord, dx: int, dy: int, k: int)
    requires size == BoardSize && b == Opening(size)
    requires Unit(dx, dy)
    requires RunOf(size, b, BLACK, c, dx, dy, k)
    ensures k == 1
    ensures c in OpeningMoves
  {
    OpeningRayWhite(size, b, c, dx, dy);
    OpeningRayBlack(size, b, c, dx, dy);
    BlackRunsOn(size, b, c, dx, dy, k);
  }

  /** The arithmetic behind `OpeningBlackRuns`: the only lines of white pieces
      closed by a black one on the opening board have length one. */
  lemma OpeningLine(x: int, y: int, dx: int, dy: int, k: int)
    requires Unit(dx, dy) && 1 <= k
    requires OpeningHolds(x + 1 * dx, y + 1 * dy, WHITE)
    requires k >= 2 ==> OpeningHolds(x + 2 * dx, y + 2 * dy, WHITE)
    requires k >= 3 ==> OpeningHolds(x + 3 * dx, y + 3 * dy, WHITE)
    requires k == 2 ==> OpeningHolds(x + 3 * dx, y + 3 * dy, BLACK)
    requires k == 1 ==> OpeningHolds(x + 2 * dx, y + 2 * dy, BLACK)
    ensures k == 1
    ensures (x == 3 && y == 2) || (x == 2 && y == 3) || (x == 5 && y == 4) || (x == 4 && y == 5)
  {
  }

  /** An empty in-bounds cell with white next to it and black beyond, along a
      direction of the table, is legal for black. */
  lemma LegalFromCells(size: int, b: Board, c: Coord, i: int)
    requires 0 <= i < Directions
    requires InBounds(size, c.x, c.y) && c !in b
    requires PieceAt(size, b, c, DX[i], DY[i], 1, WHITE)
    requires PieceAt(size, b, c, DX[i], DY[i], 2, BLACK)
    ensures Legal(size, b, BLACK, c)
  {
    assert RunOf(size, b, BLACK, c, DX[i], DY[i], 1);
  }

  /** Each canonical opening move brackets one white piece. */
  lemma OpeningMovesLegal(size: int, b: Board, c: Coord)
    requires size == BoardSize && b == Opening(size)
    requires c in OpeningMoves
    ensures Legal(size, b, BLACK, c)
  {
    OpeningCells(size, c);
    if c == Coord(3, 2) {
      OpeningCellHolds(size, b, 3, 3, WHITE);
      OpeningCellHolds(size, b, 3, 4, BLACK);
      LegalFromCells(size, b, c, 6);
    } else if c == Coord(2, 3) {
      OpeningCellHolds(size, b, 3, 3, WHITE);
      OpeningCellHolds(size, b, 4, 3, BLACK);
      LegalFromCells(size, b, c, 4);
    } else if c == Coord(5, 4) {
      OpeningCellHolds(size, b, 4, 4, WHITE);
      OpeningCellHolds(size, b, 3, 4, BLACK);
      LegalFromCells(size, b, c, 3);
    } else {
      OpeningCellHolds(size, b, 4, 4, WHITE);
      OpeningCellHolds(size, b, 4, 3, BLACK);
      LegalFromCells(size, b, c, 1);
    }
  }

  /** The head of a row-major sequence comes first. */
  lemma RowMajorHeadFirst(s: seq<Coord>, c: Coord)
    requires RowMajor(s) && c in s
    ensures s[0] == c || Before(s[0], c)
  {
    var i :| 0 <= i < |s| && s[i] == c;
    if i > 0 {
      assert Before(s[0], s[i]);
    }
  }

  /** Two row-major sequences with the same elements are the same sequence. */
  lemma {:induction false} RowMajorUnique(s: seq<Coord>, t: seq<Coord>)
    requires RowMajor(s) && RowMajor(t)
    requires forall c :: c in s <==> c in t
    ensures s == t
    decreases |s|
  {
    assert s != [] ==> s[0] in t;
    assert t != [] ==> t[0] in s;
    if s != [] {
      RowMajorHeadFirst(t, s[0]);
      RowMajorHeadFirst(s, t[0]);
      assert s[0] == t[0];
      forall c ensures c in s[1..] <==> c in t[1..] {
        if c in s[1..] {
          var i :| 1 <= i < |s| && s[i] == c;
          assert Before(s[0], c);
          assert c in s && c in t;
          var j :| 0 <= j < |t| && t[j] == c;
          assert j != 0;
          assert t[1..][j - 1] == c;
        }
        if c in t[1..] {
          var i :| 1 <= i < |t| && t[i] == c;
          assert Before(t[0], c);
          assert c in t && c in s;
          var j :| 0 <= j < |s| && s[j] == c;
          assert j != 0;
          assert s[1..][j - 1] == c;
        }
      }
      RowMajorUnique(s[1..], t[1..]);
      assert s == [s[0]] + s[1..] && t == [t[0]] + t[1..];
    }
  }

  /** On the 8x8 opening black may play exactly at the four canonical cells. */
  lemma OpeningLegalCells(size: int, b: Board, c: Coord)
    requires size == BoardSize && b == Opening(size)
    ensures Legal(size, b, BLACK, c) <==> c in OpeningMoves
  {
    if c in OpeningMoves {
      OpeningMovesLegal(size, b, c);
    }
    if Legal(size, b, BLACK, c) {
      DirectionTable();
      var i, k :| 0 <= i < Directions && RunOf(size, b, BLACK, c, DX[i], DY[i], k);
      OpeningBlackRuns(size, b, c, DX[i], DY[i], k);
    }
  }

  /** The four canonical moves are listed in scan order. */
  lemma OpeningMovesRowMajor()
    ensures RowMajor(OpeningMoves)
  {
  }

  /** Black's legal plays on a board equal to the 8x8 opening. */
  lemma OpeningPlaysOn(size: int, b: Board)
    requires size == BoardSize && b == Opening(BoardSize)
    ensures LegalPlays(size, b, BLACK) == OpeningMoves
  {
    var plays := LegalPlays(size, b, BLACK);
    LegalPlaysMatchRule(size, b, BLACK);
    forall c ensures c in plays <==> c in OpeningMoves {
      OpeningLegalCells(size, b, c);
    }
    OpeningMovesRowMajor();
    RowMajorUnique(plays, OpeningMoves);
  }

  /** On the standard 8x8 opening black's legal plays are (3,2), (2,3), (5,4)
      and (4,5), in that order. */
  lemma OpeningPlays()
    ensures LegalPlays(BoardSize, Opening(BoardSize), BLACK) == OpeningMoves
  {
    OpeningPlaysOn(BoardSize, Opening(BoardSize));
  }

  /** A reset on the standard board always lands on black's turn with the four
      opening plays offered and the pass flag cleared, whatever the flag was. */
  lemma ResetStartsGame(s: Session)
    ensures Reset(BoardSize, s) == Session(Opening(BoardSize), Awaiting(BLACK, OpeningMoves), false)
  {
    OpeningPlays();
  }

  /** The turn handler, case by case, against the rule of the game: a colour
      with a legal cell is offered exactly its legal cells, in scan order, and
      the pass flag is cleared; a colour without is passed over once; a second
      colour without ends the game with the winner tally. */
  lemma OnTurnCases(size: int, s: Session)
    requires s.phase.ToMove?
    ensures var color := s.phase.color;
            var r := OnTurn(size, s);
            && ((exists c :: Legal(size, s.board, color, c)) ==>
                  && r.phase.Awaiting? && r.phase.color == color && !r.lastPlayerPassed
                  && RowMajor(r.phase.plays)
                  && (forall c :: c in r.phase.plays <==> Legal(size, s.board, color, c)))
            && (!(exists c :: Legal(size, s.board, color, c)) && !s.lastPlayerPassed ==>
                  r.phase == ToMove(Next(color)) && r.lastPlayerPassed)
            && (!(exists c :: Legal(size, s.board, color, c)) && s.lastPlayerPassed ==>
                  r.phase == Ended(Winners(s.board)))
  {
    var color := s.phase.color;
    var plays := LegalPlays(size, s.board, color);
    LegalPlaysMatchRule(size, s.board, color);
    if exists c :: Legal(size, s.board, color, c) {
      var c :| Legal(size, s.board, color, c);
      assert c in plays;
    }
    assert plays != [] ==> plays[0] in plays;
  }

  /** Forced passes never chain: after one, the next run of the handler either
      offers plays or ends the game. */
  lemma NoTwoPassesInARow(size: int, s: Session)
    requires s.phase.ToMove?
    requires OnTurn(size, s).phase.ToMove?
    ensures !OnTurn(size, OnTurn(size, s)).phase.ToMove?
  {
  }

  /** When neither colour can move, two runs of the handler end the game. */
  lemma DoublePassEnds(size: int, s: Session)
    requires s.phase.ToMove? && !s.lastPlayerPassed
    requires LegalPlays(size, s.board, BLACK) == [] && LegalPlays(size, s.board, WHITE) == []
    ensures OnTurn(size, s).phase.ToMove?
    ensures OnTurn(size, OnTurn(size, s)).phase == Ended(Winners(s.board))
  {
    assert s.phase.color == BLACK || s.phase.color == WHITE;
  }

  /** What holds of every session the game can reach:
      - the board stays inside the grid;
      - offered plays are the legal plays, there is at least one, and no pass is pending;
      - a pending pass means the colour that passed has no legal play;
      - an ended game has no legal play for either colour, and its winners are the tally. */
  ghost predicate Consistent(size: int, s: Session)
  {
    && WellFormed(size, s.board)
    && (s.phase.Awaiting? ==>
          && !s.lastPlayerPassed
          && s.phase.plays == LegalPlays(size, s.board, s.phase.color)
          && s.phase.plays != [])
    && (s.phase.ToMove? && s.lastPlayerPassed ==>
          LegalPlays(size, s.board, Next(s.phase.color)) == [])
    && (s.phase.Ended? ==>
          && LegalPlays(size, s.board, BLACK) == []
          && LegalPlays(size, s.board, WHITE) == []
          && s.phase.winners == Winners(s.board))
  }

  /** A reset on the standard board starts a consistent game. */
  lemma ResetConsistent(size: int, s: Session)
    requires size == BoardSize
    ensures Consistent(size, Reset(size, s))
  {
    OpeningPlaysOn(size, Opening(size));
  }

  /** The turn handler keeps a session consistent. */
  lemma OnTurnConsistent(size: int, s: Session)
    requires s.phase.ToMove?
    requires Consistent(size, s)
    ensures Consistent(size, OnTurn(size, s))
  {
    var color := s.phase.color;
    NextInvolution(color);
    if LegalPlays(size, s.board, color) == [] && s.lastPlayerPassed {
      assert color == BLACK || color == WHITE;
    }
  }

  /** Playing an offered move keeps a session consistent. */
  lemma PlayConsistent(size: int, s: Session, coord: Coord)
    requires s.phase.Awaiting? && coord in s.phase.plays
    requires Consistent(size, s)
    ensures Consistent(size, Play(size, s, coord))
  {
    ApplyPlayKeepsWellFormed(size, s.board, s.phase.color, coord);
  }

  /** The game ends only after two consecutive colours had no legal play: when
      the handler ends a consistent game, the colour to move has none and the
      colour before it passed for lack of any. */
  lemma EndOnlyAfterDoublePass(size: int, s: Session)
    requires s.phase.ToMove?
    requires Consistent(size, s)
    requires OnTurn(size, s).phase.Ended?
    ensures s.lastPlayerPassed
    ensures LegalPlays(size, s.board, s.phase.color) == []
    ensures LegalPlays(size, s.board, Next(s.phase.color)) == []
  {
  }

  /** The handler event keeps a session consistent. */
  lemma HandleTurnConsistent(size: int, s: Session)
    requires Consistent(size, s)
    ensures Consistent(size, Step(size, s, HandleTurn))
  {
    if s.phase.ToMove? {
      OnTurnConsistent(size, s);
    }
  }

  /** A click keeps a session consistent. */
  lemma ChooseConsistent(size: int, s: Session, coord: Coord)
    requires Consistent(size, s)
    ensures Consistent(size, Step(size, s, Choose(coord)))
  {
    if s.phase.Awaiting? && coord in s.phase.plays {
      PlayConsistent(size, s, coord);
    }
  }

  /** A restart click after the game has ended starts a fresh game: the opening
      board, black to choose among its four opening plays, no pass pending. */
  lemma RestartStartsGame(size: int, s: Session)
    requires size == BoardSize && s.phase.Ended?
    ensures Step(size, s, Restart) == Session(Opening(size), Awaiting(BLACK, OpeningMoves), false)
  {
    assert Step(size, s, Restart) == Reset(size, s);
    OpeningPlaysOn(size, Opening(size));
  }

  /** A restart keeps a session on the standard board consistent. */
  lemma RestartConsistent(size: int, s: Session)
    requires size == BoardSize
    requires Consistent(size, s)
    ensures Consistent(size, Step(size, s, Restart))
  {
    if s.phase.Ended? {
      RestartStartsGame(size, s);
      ResetConsistent(size, s);
    }
  }

  /** Every event keeps a session on the standard board consistent. */
  lemma StepConsistent(size: int, s: Session, e: Event)
    requires size == BoardSize
    requires Consistent(size, s)
    ensures Consistent(size, Step(size, s, e))
  {
    match e
    case HandleTurn => HandleTurnConsistent(size, s);
    case Choose(coord) => ChooseConsistent(size, s, coord);
    case Restart => RestartConsistent(size, s);
  }

  /** Every session reached from a consistent one, whatever the events, is
      consistent; in particular every session of a game started by a reset. */
  lemma {:induction false} RunConsistent(s: Session, events: seq<Event>)
    requires Consistent(BoardSize, s)
    ensures Consistent(BoardSize, Run(BoardSize, s, events))
    decreases |events|
  {
    if events != [] {
      StepConsistent(BoardSize, s, events[0]);
      RunConsistent(Step(BoardSize, s, events[0]), events[1..]);
    }
  }

  /** In any game started by a reset, the game is over only when neither colour
      has a legal play. */
  lemma EndedGamesAreStuck(s0: Session, events: seq<Event>)
    ensures var s := Run(BoardSize, Reset(BoardSize, s0), events);
            s.phase.Ended? ==>
              && LegalPlays(BoardSize, s.board, BLACK) == []
              && LegalPlays(BoardSize, s.board, WHITE) == []
              && s.phase.winners == Winners(s.board)
  {
    ResetConsistent(BoardSize, s0);
    RunConsistent(Reset(BoardSize, s0), events);
  }

  /** The crafted position of `TwoDirectionCapture`. */
  predicate Crafted(size: int, board: Board)
  {
    && size == BoardSize
    && board == map[Coord(3, 2) := WHITE, Coord(4, 2) := BLACK,
                    Coord(2, 3) := WHITE, Coord(2, 4) := BLACK]
  }

  /** In the crafted position black at (2,2) brackets (3,2) eastward and (2,3)
      southward. */
  lemma CraftedBrackets(size: int, board: Board)
    requires Crafted(size, board)
    ensures Flipped(size, board, BLACK, Coord(2, 2), Coord(3, 2))
    ensures Flipped(size, board, BLACK, Coord(2, 2), Coord(2, 3))
  {
    var c := Coord(2, 2);
    DirectionTable();
    assert PieceAt(size, board, c, DX[4], DY[4], 1, WHITE);
    assert PieceAt(size, board, c, DX[4], DY[4], 2, BLACK);
    assert RunOf(size, board, BLACK, c, DX[4], DY[4], 1);
    assert OnRay(c, DX[4], DY[4], 1, Coord(3, 2));
    assert FlipsIn(size, board, BLACK, c, 4, Coord(3, 2));
    assert PieceAt(size, board, c, DX[6], DY[6], 1, WHITE);
    assert PieceAt(size, board, c, DX[6], DY[6], 2, BLACK);
    assert RunOf(size, board, BLACK, c, DX[6], DY[6], 1);
    assert OnRay(c, DX[6], DY[6], 1, Coord(2, 3));
    assert FlipsIn(size, board, BLACK, c, 6, Coord(2, 3));
  }

  /** A crafted position: black at (2,2) brackets a white piece to its right
      and another below, and both flip in the same play; the closing black
      pieces stay black. */
  lemma TwoDirectionCapture(size: int, board: Board)
    requires Crafted(size, board)
    ensures var r := ApplyPlay(size, board, BLACK, Coord(2, 2));
            && r.Keys == {Coord(2, 2), Coord(3, 2), Coord(4, 2), Coord(2, 3), Coord(2, 4)}
            && r[Coord(2, 2)] == BLACK
            && r[Coord(3, 2)] == BLACK && r[Coord(2, 3)] == BLACK
            && r[Coord(4, 2)] == BLACK && r[Coord(2, 4)] == BLACK
  {
    var c := Coord(2, 2);
    CraftedBrackets(size, board);
    ApplyPlayTurnsCaptured(size, board, BLACK, c, Coord(3, 2));
    ApplyPlayTurnsCaptured(size, board, BLACK, c, Coord(2, 3));
    ApplyPlayKeepsOwn(size, board, BLACK, c, Coord(4, 2));
    ApplyPlayKeepsOwn(size, board, BLACK, c, Coord(2, 4));
  }
}
