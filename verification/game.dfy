/** The game flow of `Reversi.kt`: the opening position, the turn handler with
    its forced-pass / double-pass logic, and the winner tally at game end. The
    reactive `turn` value becomes an explicit phase of a session value. */
module Game {
  import opened Pieces
  import opened Logic

  /** The board size the game is played on. */
  const BoardSize: int := 8

  /** The four centre pieces of the opening: white on the main diagonal, black
      on the other. */
  function Opening(size: int): (board: Board)
    requires size >= 2
    ensures |board| == 4
    ensures WellFormed(size, board)
  {
    var half := size / 2;
    var b := map[Coord(half - 1, half - 1) := WHITE, Coord(half, half - 1) := BLACK,
                 Coord(half - 1, half) := BLACK, Coord(half, half) := WHITE];
    assert b.Keys == {Coord(half - 1, half - 1), Coord(half, half - 1),
                      Coord(half - 1, half), Coord(half, half)};
    b
  }

  /** Where the game stands.
      - ToMove(color): the turn has just passed to `color`; its handler runs next.
      - Awaiting(color, plays): `color` has been offered `plays` and must pick one.
      - Ended(winners): the game is over. */
  datatype Phase =
    | ToMove(color: Piece)
    | Awaiting(color: Piece, plays: seq<Coord>)
    | Ended(winners: seq<Piece>)

  /** A game session: the board, the phase, and the handler's memory of whether
      the previous colour was forced to pass. */
  datatype Session = Session(board: Board, phase: Phase, lastPlayerPassed: bool)

  /** Best score among the colours `ps`, counting up from 0 as the tally does. */
  ghost function MaxCount(board: Board, ps: seq<Piece>): nat
    decreases |ps|
  {
    if ps == [] then 0
    else
      var m := MaxCount(board, ps[..|ps| - 1]);
      var s := Count(board, ps[|ps| - 1]);
      if s > m then s else m
  }

  /** The colours of `ps` whose count is `score`, in the order of `ps`. */
  ghost function AtScore(board: Board, ps: seq<Piece>, score: nat): seq<Piece>
    decreases |ps|
  {
    if ps == [] then []
    else
      AtScore(board, ps[..|ps| - 1], score)
      + (if Count(board, ps[|ps| - 1]) == score then [ps[|ps| - 1]] else [])
  }

  /** The winner loop of `endGame` from position `i` on: a colour matching the
      high score joins the winners, a colour beating it replaces them. */
  function Tally(board: Board, ps: seq<Piece>, i: nat, winners: seq<Piece>, highScore: nat): seq<Piece>
    requires i <= |ps|
    decreases |ps| - i
  {
    if i == |ps| then winners
    else
      var score := Count(board, ps[i]);
      if score == highScore then Tally(board, ps, i + 1, winners + [ps[i]], highScore)
      else if score > highScore then Tally(board, ps, i + 1, [ps[i]], score)
      else Tally(board, ps, i + 1, winners, highScore)
  }

  /** No colour of `ps` beats the best score. */
  lemma {:induction false} MaxCountBounds(board: Board, ps: seq<Piece>)
    ensures forall j | 0 <= j < |ps| :: Count(board, ps[j]) <= MaxCount(board, ps)
    ensures ps != [] ==> exists j :: 0 <= j < |ps| && Count(board, ps[j]) == MaxCount(board, ps)
    decreases |ps|
  {
    if ps != [] {
      var init := ps[..|ps| - 1];
      MaxCountBounds(board, init);
      assert forall j | 0 <= j < |init| :: init[j] == ps[j];
      if init != [] && Count(board, ps[|ps| - 1]) <= MaxCount(board, init) {
        var j :| 0 <= j < |init| && Count(board, init[j]) == MaxCount(board, init);
        assert ps[j] == init[j];
      } else {
        assert Count(board, ps[|ps| - 1]) == MaxCount(board, ps);
      }
    }
  }

  /** Nobody in `ps` reaches a score above all of their counts. */
  lemma {:induction false} AtScoreEmpty(board: Board, ps: seq<Piece>, score: nat)
    requires forall j | 0 <= j < |ps| :: Count(board, ps[j]) < score
    ensures AtScore(board, ps, score) == []
    decreases |ps|
  {
    if ps != [] {
      var init := ps[..|ps| - 1];
      assert forall j | 0 <= j < |init| :: init[j] == ps[j];
      AtScoreEmpty(board, init, score);
    }
  }

  /** The winner loop, started after the prefix `ps[..i]` with that prefix's
      best score and its colours at that score, ends with the colours of `ps`
      at the best score of all of `ps`. */
  lemma {:induction false} TallyFold(board: Board, ps: seq<Piece>, i: nat, winners: seq<Piece>, highScore: nat)
    requires i <= |ps|
    requires highScore == MaxCount(board, ps[..i])
    requires winners == AtScore(board, ps[..i], highScore)
    ensures Tally(board, ps, i, winners, highScore) == AtScore(board, ps, MaxCount(board, ps))
    decreases |ps| - i
  {
    if i == |ps| {
      assert ps[..i] == ps;
    } else {
      var p := ps[i];
      var score := Count(board, p);
      var pre, pre' := ps[..i], ps[..i + 1];
      assert pre'[..i] == pre && pre'[i] == p;
      if score == highScore {
        TallyFold(board, ps, i + 1, winners + [p], highScore);
      } else if score > highScore {
        MaxCountBounds(board, pre);
        AtScoreEmpty(board, pre, score);
        TallyFold(board, ps, i + 1, [p], score);
      } else {
        TallyFold(board, ps, i + 1, winners, highScore);
      }
    }
  }

  /** The winners of `endGame`: the colours whose count is the best count, in
      enum order. */
  function Winners(board: Board): (w: seq<Piece>)
    ensures w == AtScore(board, AllPieces, MaxCount(board, AllPieces))
  {
    TallyFold(board, AllPieces, 0, [], 0);
    Tally(board, AllPieces, 0, [], 0)
  }

  /** The winners are exactly the colours with the highest count, black before
      white; there is always one, and just one unless the counts tie. */
  lemma WinnersAreMaximal(board: Board)
    ensures var w := Winners(board);
            var b, wh := Count(board, BLACK), Count(board, WHITE);
            && |w| >= 1
            && (forall p :: p in w <==> Count(board, p) == (if b >= wh then b else wh))
            && (|w| == 1 <==> b != wh)
            && (w == [BLACK] || w == [WHITE] || w == [BLACK, WHITE])
  {
    var ps := AllPieces;
    var b, wh := Count(board, BLACK), Count(board, WHITE);
    var w := Winners(board);
    assert w == Tally(board, ps, 0, [], 0);
    assert Tally(board, ps, 0, [], 0) == Tally(board, ps, 1, [BLACK], b);
    if b == wh {
      assert Tally(board, ps, 1, [BLACK], b) == Tally(board, ps, 2, [BLACK, WHITE], b);
      assert w == [BLACK, WHITE];
    } else if wh > b {
      assert Tally(board, ps, 1, [BLACK], b) == Tally(board, ps, 2, [WHITE], wh);
      assert w == [WHITE];
    } else {
      assert Tally(board, ps, 1, [BLACK], b) == Tally(board, ps, 2, [BLACK], b);
      assert w == [BLACK];
    }
    var top := if b >= wh then b else wh;
    forall p ensures p in w <==> Count(board, p) == top {
      if p == BLACK { assert Count(board, p) == b; } else { assert Count(board, p) == wh; }
    }
  }

  /** One run of the turn handler for the colour whose turn it is: offer its
      legal plays, or pass once, or end the game when the previous colour
      passed too. */
  function OnTurn(size: int, s: Session): (r: Session)
    requires s.phase.ToMove?
    ensures r.board == s.board
  {
    var color := s.phase.color;
    var plays := LegalPlays(size, s.board, color);
    if plays != [] then Session(s.board, Awaiting(color, plays), false)
    else if s.lastPlayerPassed then Session(s.board, Ended(Winners(s.board)), true)
    else Session(s.board, ToMove(Next(color)), true)
  }

  /** The player picks one of the offered plays: it is applied and the turn
      passes to the opponent. */
  function Play(size: int, s: Session, coord: Coord): (r: Session)
    requires s.phase.Awaiting? && coord in s.phase.plays
    ensures r.board.Keys == s.board.Keys + {coord}
    ensures r.board[coord] == s.phase.color
    ensures r.phase == ToMove(Next(s.phase.color))
  {
    Session(ApplyPlay(size, s.board, s.phase.color, coord), ToMove(Next(s.phase.color)), s.lastPlayerPassed)
  }

  /** Clears the board to the opening and hands the turn to black, which runs
      the handler. The pass flag is the handler's own and survives a reset. */
  function Reset(size: int, s: Session): (r: Session)
    requires size >= 2
    ensures r.board == Opening(size)
  {
    OnTurn(size, Session(Opening(size), ToMove(BLACK), s.lastPlayerPassed))
  }

  /** What can happen next in a session.
      - HandleTurn: the turn handler runs for the colour to move.
      - Choose(coord): the player clicks one of the offered plays.
      - Restart: the player clicks the game-over banner. */
  datatype Event = HandleTurn | Choose(coord: Coord) | Restart

  /** One event. An event the session does not offer at this point (a click on
      a cell that is not an offered play, any click while a turn is still being
      handled, a restart before the game is over) changes nothing. */
  function Step(size: int, s: Session, e: Event): (r: Session)
    ensures e.HandleTurn? && s.phase.ToMove? ==> r.phase != s.phase
    ensures && !(e.HandleTurn? && s.phase.ToMove?)
            && !(e.Choose? && s.phase.Awaiting? && e.coord in s.phase.plays)
            && !(e.Restart? && s.phase.Ended? && size >= 2)
            ==> r == s
  {
    match e
    case HandleTurn => if s.phase.ToMove? then OnTurn(size, s) else s
    case Choose(coord) =>
      if s.phase.Awaiting? && coord in s.phase.plays then Play(size, s, coord) else s
    case Restart => if s.phase.Ended? && size >= 2 then Reset(size, s) else s
  }

  /** A sequence of events, in order. */
  function Run(size: int, s: Session, events: seq<Event>): (r: Session)
    decreases |events|
  {
    if events == [] then s else Run(size, Step(size, s, events[0]), events[1..])
  }
}
