/** The data model shared by the rules engine and the game flow: the two piece
    colours, board coordinates and the sparse board itself. */
module Pieces {

  /** The two piece colours, in declaration (ordinal) order. */
  datatype Piece = BLACK | WHITE

  /** All colours in enum order, as `Piece.values()` lists them. */
  const AllPieces: seq<Piece> := [BLACK, WHITE]

  /** The opponent of a colour. */
  function Next(p: Piece): (r: Piece)
    ensures r != p
  {
    match p
    case BLACK => WHITE
    case WHITE => BLACK
  }

  /** Taking the opponent twice gives back the colour itself. */
  lemma NextInvolution(p: Piece)
    ensures Next(Next(p)) == p
  {
  }

  /** With only two colours, "not my colour" and "my opponent's colour" coincide. */
  lemma OtherIsNext(p: Piece, q: Piece)
    ensures q != p <==> q == Next(p)
  {
  }

  /** A board cell. Both components are non-negative by construction. */
  datatype Coord = Coord(x: nat, y: nat)

  /** The sparse board: a cell absent from the map is empty. */
  type Board = map<Coord, Piece>

  /** Number of pieces of colour `p` on the board. */
  function Count(board: Board, p: Piece): nat
  {
    |set c | c in board && board[c] == p|
  }

  /** Every piece is either black or white, so the two tallies add up to the
      number of occupied cells. */
  lemma CountsPartition(board: Board)
    ensures Count(board, BLACK) + Count(board, WHITE) == |board|
  {
    var blacks := set c | c in board && board[c] == BLACK;
    var whites := set c | c in board && board[c] == WHITE;
    assert blacks + whites == board.Keys;
    assert blacks * whites == {};
  }
}
