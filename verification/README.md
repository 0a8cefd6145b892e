# Reversi rules and game flow, in Dafny

This project models the core of a small Reversi (Othello) game written in
Kotlin:

- the rules engine `Logic`:
  - the bounds test;
  - the eight-direction table;
  - the legality test `isLegalPlay`;
  - move application `applyPlay`;
  - the scan `legalPlays`;
- the game flow of `Reversi`:
  - the two piece colours and their `next`;
  - board coordinates;
  - the opening position set up by `reset`;
  - the turn handler with its forced-pass / double-pass logic;
  - the winner tally of `endGame`.

The board is a `map<Coord, Piece>`, and an absent key is an empty cell, as in
the source's map. The board size is a parameter, as it is for the `Logic` class.
The game itself uses size 8.

## Layout

- `pieces.dfy` (`Pieces`): the `Piece` colours with `Next`, `Coord`, the `Board` type, and the per-colour `Count`.
- `logic.dfy` (`Logic`): `Logic.kt` as written.
  - Each directional walk is a recursive function with a budget of `size` steps, which mirrors `for (dd in 0..boardSize - 1)`.
  - Move application places the piece first. It then walks the directions in table order, and each walk reads the board as the earlier directions left it.
  - `LegalPlays` scans rows top to bottom and each row left to right.
- `rays.dfy` (`Rays`): an independent statement of the rule of the game, with no walks or budgets.
  - `RunOf`: k >= 1 opponent pieces in a line from the played cell, closed by an own piece.
  - `Legal`: an empty in-bounds cell with such a run in some direction.
  - `Flipped`: a cell inside such a run.
  - The geometry lemmas about rays.
- `logic_proofs.dfy` (`LogicProofs`): the walks agree with the reference rule. These are the main correctness results for `Logic`.
- `game.dfy` (`Game`): the opening, the turn handler, a click on an offered play, a restart after the game ends, and the winner tally.
  - The reactive `turn` value becomes an explicit `Phase` of a `Session` value.
  - `ToMove(color)` means the handler is about to run for `color`.
  - `Awaiting(color, plays)` means the plays are shown and a click is awaited.
  - `Ended(winners)` means the game is over.
  - An `Event` is one of `HandleTurn`, `Choose(coord)` or `Restart`.
  - `Step` applies one event and `Run` applies a sequence of events.
- `game_proofs.dfy` (`GameProofs`):
  - the 8x8 opening and black's four opening plays;
  - the pass rules;
  - an invariant kept by every reachable session;
  - a worked capture example.

## Model

| member | source | states |
|---|---|---|
| `Pieces.Next` | core/src/main/kotlin/reversi/core/Reversi.kt:14-23 | a colour's `next` is the other colour |
| `Pieces.NextInvolution` | core/src/main/kotlin/reversi/core/Reversi.kt:14-23 | `next` of `next` is the colour itself |
| `Pieces.OtherIsNext` | core/src/main/kotlin/reversi/core/Reversi.kt:14-23 | a colour different from `p` is exactly `p.next` (two colours only), which is why `piece != color` in the walks means "opponent" |
| `Pieces.Count` | core/src/main/kotlin/reversi/core/Reversi.kt:93-95 | no contract of its own: the number of cells holding a colour, which is what the `count[p.ordinal]++` loop computes; see `Pieces.CountsPartition` and `Game.WinnersAreMaximal` |
| `Pieces.CountsPartition` | core/src/main/kotlin/reversi/core/Reversi.kt:93-95 | the per-colour tallies of `endGame` add up to the number of pieces on the board |
| `Logic.InBounds` | core/src/main/kotlin/reversi/core/Logic.kt:83-85 | no contract of its own: both coordinates lie in `0 until size`; every walk and the rule in `Rays` go through it |
| `Logic.Brackets` | core/src/main/kotlin/reversi/core/Logic.kt:16-33 | no contract of its own: one direction of the legality walk, characterised by `LogicProofs.BracketsFrom` and `LogicProofs.BracketsMatchRun` |
| `Logic.IsLegalPlay` | core/src/main/kotlin/reversi/core/Logic.kt:11-12 | a legal cell is inside the grid and unoccupied |
| `Logic.Capture` | core/src/main/kotlin/reversi/core/Logic.kt:50-63 | the cells one capture walk collects are all occupied by a piece not of the mover's colour |
| `Logic.FlipAll` | core/src/main/kotlin/reversi/core/Logic.kt:61 | flipping a run writes `color` into exactly the run's cells and leaves every other cell as it was |
| `Logic.ApplyDirections` | core/src/main/kotlin/reversi/core/Logic.kt:46-66 | walking the directions in turn adds no cell and never turns a piece of the mover's colour |
| `Logic.ApplyPlay` | core/src/main/kotlin/reversi/core/Logic.kt:41-44 | after a play the board holds the old cells plus the played one, and the played cell holds the mover's colour |
| `Logic.ScanRow` | core/src/main/kotlin/reversi/core/Logic.kt:74-78 | one row of the scan yields exactly the legal cells of that row from the start column on, left to right |
| `Logic.ScanRows` | core/src/main/kotlin/reversi/core/Logic.kt:73-79 | the scan from a row on yields exactly the legal cells of those rows, in row-major order |
| `Logic.LegalPlays` | core/src/main/kotlin/reversi/core/Logic.kt:70-81 | a cell is listed iff `isLegalPlay` accepts it; the list is in row-major order and has no repeats |
| `Rays.DirectionTable` | core/src/main/kotlin/reversi/core/Logic.kt:89-90 | the DX/DY tables have eight entries, each a king step, pairwise distinct, and covering all eight king steps |
| `Rays.RunUnique` | core/src/main/kotlin/reversi/core/Logic.kt:20-33 | along one direction a play brackets at most one run: the first own piece closes it |
| `Rays.StepBound` | core/src/main/kotlin/reversi/core/Logic.kt:20 | a bracket always fits in fewer than `boardSize` steps, so the walk budget never cuts one short |
| `Rays.RaysDisjoint` | core/src/main/kotlin/reversi/core/Logic.kt:89-90 | the eight rays from a cell share no cell, and each ray reaches its cells at one distance only |
| `Rays.RayAvoidsOrigin` | core/src/main/kotlin/reversi/core/Logic.kt:51-53 | a walk never comes back to the played cell |
| `Rays.FlippedWasOpponent` | core/src/main/kotlin/reversi/core/Logic.kt:58-61 | a cell the rule captures holds an opponent piece |
| `LogicProofs.BracketsFrom` | core/src/main/kotlin/reversi/core/Logic.kt:17-33 | a legality walk resumed after `j` opponent pieces succeeds iff the ray from there closes a bracket within the remaining budget |
| `LogicProofs.BracketsMatchRun` | core/src/main/kotlin/reversi/core/Logic.kt:16-33 | a full legality walk in a direction succeeds iff that direction brackets a run |
| `LogicProofs.IsLegalPlayMatchesRule` | core/src/main/kotlin/reversi/core/Logic.kt:11-37 | `isLegalPlay` accepts a cell iff it is empty, in bounds and brackets a run in some direction (both directions of the iff) |
| `LogicProofs.LegalPlaysMatchRule` | core/src/main/kotlin/reversi/core/Logic.kt:70-81 | `legalPlays` lists exactly the cells the rule allows, in row-major order |
| `LogicProofs.CaptureFrom` | core/src/main/kotlin/reversi/core/Logic.kt:48-64 | a capture walk resumed after `j` collected cells returns them plus the rest of the run when an own piece closes it, and nothing otherwise |
| `LogicProofs.CaptureMatchesRule` | core/src/main/kotlin/reversi/core/Logic.kt:48-65 | the cells one capture walk flips are exactly the cells inside that direction's bracketed run |
| `LogicProofs.FlipsInFrame` | core/src/main/kotlin/reversi/core/Logic.kt:48-64 | what a direction captures depends only on the cells of its own ray |
| `LogicProofs.RayUntouched` | core/src/main/kotlin/reversi/core/Logic.kt:44-66 | flips made by earlier directions never touch a later direction's ray, so walking the mutated board sees the original pieces |
| `LogicProofs.ApplyDirectionStep` | core/src/main/kotlin/reversi/core/Logic.kt:46-66 | applying one more direction flips exactly that direction's run on top of the earlier ones |
| `LogicProofs.ApplyDirectionsEffect` | core/src/main/kotlin/reversi/core/Logic.kt:46-66 | after all directions, the board holds the flips of all eight runs, each computed on the board before the play |
| `LogicProofs.ApplyPlayEffect` | core/src/main/kotlin/reversi/core/Logic.kt:41-67 | a play adds the played cell in the mover's colour, removes nothing, turns exactly the captured cells, and leaves every other cell unchanged |
| `LogicProofs.ApplyPlayChangesOnlyBrackets` | core/src/main/kotlin/reversi/core/Logic.kt:41-67 | an existing piece changes iff it is captured, and captured pieces were the opponent's |
| `LogicProofs.ApplyPlayTurnsCaptured` | core/src/main/kotlin/reversi/core/Logic.kt:58-61 | every captured piece ends in the mover's colour |
| `LogicProofs.ApplyPlayKeepsOwn` | core/src/main/kotlin/reversi/core/Logic.kt:58-61 | a piece of the mover's colour is never turned |
| `LogicProofs.FlipDirectionUnique` | core/src/main/kotlin/reversi/core/Logic.kt:46-66 | a captured cell lies on exactly one direction's run |
| `LogicProofs.LegalHasCapture` | core/src/main/kotlin/reversi/core/Logic.kt:27-30 | a legal cell has a captured piece right next to it, one step along a direction of the table |
| `LogicProofs.LegalPlayCaptures` | core/src/main/kotlin/reversi/core/Logic.kt:39-67 | applying a legal play turns at least one opponent piece |
| `LogicProofs.RecolourCount` | core/src/main/kotlin/reversi/core/Logic.kt:44-61 | writing only the mover's colour never raises the opponent's count, and turning an opponent piece lowers it |
| `LogicProofs.ApplyPlayOpponentCount` | core/src/main/kotlin/reversi/core/Logic.kt:41-67 | a play never gives the opponent pieces, and a legal play strictly lowers the opponent's count |
| `LogicProofs.ApplyPlayKeepsWellFormed` | core/src/main/kotlin/reversi/core/Logic.kt:41-44 | playing inside the grid keeps every piece inside the grid |
| `Game.Opening` | core/src/main/kotlin/reversi/core/Reversi.kt:81-87 | `reset` places four pieces, all inside the grid |
| `Game.MaxCountBounds` | core/src/main/kotlin/reversi/core/Reversi.kt:97-109 | the best score is at least every colour's count and is some colour's count |
| `Game.TallyFold` | core/src/main/kotlin/reversi/core/Reversi.kt:98-109 | the winner loop ends with the colours whose count is the best count, in enum order |
| `Game.Tally` | core/src/main/kotlin/reversi/core/Reversi.kt:98-109 | no contract of its own: the `highScore`/`winners` loop, characterised by `Game.TallyFold` |
| `Game.Winners` | core/src/main/kotlin/reversi/core/Reversi.kt:91-109 | the winners of `endGame` are the colours at the best count, in enum order |
| `Game.WinnersAreMaximal` | core/src/main/kotlin/reversi/core/Reversi.kt:97-109 | there is at least one winner; a colour wins iff its count is the highest; there is a single winner iff the counts differ; black is listed first on a tie |
| `Game.OnTurn` | core/src/main/kotlin/reversi/core/Reversi.kt:63-74 | the turn handler never changes the board |
| `Game.Play` | core/src/main/kotlin/reversi/core/GameView.kt:77-79 | a click applies the play (the clicked cell now holds the mover's colour) and hands the turn to the opponent |
| `Game.Reset` | core/src/main/kotlin/reversi/core/Reversi.kt:81-88 | after a reset the board is the opening position |
| `Game.Step` | core/src/main/kotlin/reversi/core/Reversi.kt:63-145 | the handler always moves a pending turn on; an event the session does not offer (a click on a cell not offered, any click or restart while a turn is pending, a restart before the game has ended) changes nothing. The click on an offered play is at GameView.kt lines 77-79 |
| `Game.Run` | core/src/main/kotlin/reversi/core/Reversi.kt:62-89 | no contract of its own: a sequence of events applied in order; see `GameProofs.RunConsistent` |
| `GameProofs.RestartStartsGame` | core/src/main/kotlin/reversi/core/Reversi.kt:137-145 | on the 8x8 board a click after the game has ended starts a fresh game: the opening board, black offered (3,2), (2,3), (5,4), (4,5), no pass pending |
| `GameProofs.OpeningPosition` | core/src/main/kotlin/reversi/core/Reversi.kt:83-87 | on the 8x8 board the opening is white at (3,3) and (4,4), black at (4,3) and (3,4) |
| `GameProofs.FourCellCounts` | core/src/main/kotlin/reversi/core/Reversi.kt:84-87 | four distinct cells, two white and two black, count two of each colour |
| `GameProofs.OpeningCounts` | core/src/main/kotlin/reversi/core/Reversi.kt:83-87 | the opening has two pieces of each colour |
| `GameProofs.OpeningCells` | core/src/main/kotlin/reversi/core/Reversi.kt:83-87 | the cells of the 8x8 opening and the piece on each |
| `GameProofs.OpeningCellHolds` | core/src/main/kotlin/reversi/core/Reversi.kt:83-87 | a cell of the 8x8 opening is inside the grid and holds a colour iff it is one of that colour's two starting cells |
| `GameProofs.OpeningRayWhite` | core/src/main/kotlin/reversi/core/Reversi.kt:83-87 | the first three cells of a ray on the opening hold white only at (3,3) or (4,4) |
| `GameProofs.OpeningRayBlack` | core/src/main/kotlin/reversi/core/Reversi.kt:83-87 | the second and third cells of a ray on the opening hold black only at (4,3) or (3,4) |
| `GameProofs.BlackRunsOn` | core/src/main/kotlin/reversi/core/Logic.kt:16-33 | on any board whose first three ray cells read as on the opening, a black bracket is one white piece from a canonical cell |
| `GameProofs.OpeningBlackRuns` | core/src/main/kotlin/reversi/core/Logic.kt:11-37 | on the opening every black bracket is one white piece, from one of the four canonical cells |
| `GameProofs.OpeningLine` | core/src/main/kotlin/reversi/core/Reversi.kt:83-87 | on the opening, a line of white pieces closed by black has length one and starts next to a canonical cell |
| `GameProofs.LegalFromCells` | core/src/main/kotlin/reversi/core/Logic.kt:16-33 | an empty in-bounds cell with white next to it and black beyond, along a table direction, is legal for black |
| `GameProofs.OpeningMovesLegal` | core/src/main/kotlin/reversi/core/Logic.kt:11-37 | each canonical opening move is legal for black |
| `GameProofs.OpeningLegalCells` | core/src/main/kotlin/reversi/core/Logic.kt:11-37 | on the opening black may play at a cell iff it is one of (3,2), (2,3), (5,4), (4,5) |
| `GameProofs.RowMajorHeadFirst` | core/src/main/kotlin/reversi/core/Logic.kt:73-79 | the first entry of a row-major list comes no later than any entry |
| `GameProofs.RowMajorUnique` | core/src/main/kotlin/reversi/core/Logic.kt:73-79 | two row-major lists with the same cells are the same list, so the scan order fixes `legalPlays` completely |
| `GameProofs.OpeningMovesRowMajor` | core/src/main/kotlin/reversi/core/Logic.kt:73-79 | the four canonical moves are in scan order |
| `GameProofs.OpeningPlaysOn` | core/src/main/kotlin/reversi/core/Logic.kt:70-81 | on a board equal to the opening, `legalPlays` for black is exactly [(3,2), (2,3), (5,4), (4,5)] |
| `GameProofs.OpeningPlays` | core/src/main/kotlin/reversi/core/Logic.kt:70-81 | on the 8x8 opening, `legalPlays` for black is exactly [(3,2), (2,3), (5,4), (4,5)] |
| `GameProofs.ResetStartsGame` | core/src/main/kotlin/reversi/core/Reversi.kt:81-88 | a reset always offers black the four opening plays and clears the pass flag, whatever the flag was |
| `GameProofs.OnTurnCases` | core/src/main/kotlin/reversi/core/Reversi.kt:62-74 | stated over the rule of the game: a colour with a legal cell is offered exactly its legal cells, in scan order, and the pass flag is cleared; a colour with none is passed over once and the flag set; a second colour with none ends the game with the tally |
| `GameProofs.NoTwoPassesInARow` | core/src/main/kotlin/reversi/core/Reversi.kt:65-73 | after a forced pass the next run of the handler offers plays or ends the game; it never passes again |
| `GameProofs.DoublePassEnds` | core/src/main/kotlin/reversi/core/Reversi.kt:65-73 | when neither colour can move, the handler passes once and then ends the game with the tally |
| `GameProofs.ResetConsistent` | core/src/main/kotlin/reversi/core/Reversi.kt:81-88 | a reset starts a session satisfying the game invariant |
| `GameProofs.OnTurnConsistent` | core/src/main/kotlin/reversi/core/Reversi.kt:63-74 | the handler keeps the game invariant |
| `GameProofs.PlayConsistent` | core/src/main/kotlin/reversi/core/GameView.kt:77-79 | playing an offered cell keeps the game invariant |
| `GameProofs.EndOnlyAfterDoublePass` | core/src/main/kotlin/reversi/core/Reversi.kt:65-70 | the game ends only when the colour to move has no play and the colour before it passed for lack of any |
| `GameProofs.HandleTurnConsistent` | core/src/main/kotlin/reversi/core/Reversi.kt:63-74 | the handler event keeps the game invariant |
| `GameProofs.ChooseConsistent` | core/src/main/kotlin/reversi/core/GameView.kt:77-79 | a click keeps the game invariant |
| `GameProofs.RestartConsistent` | core/src/main/kotlin/reversi/core/Reversi.kt:137-145 | a restart click keeps the game invariant |
| `GameProofs.StepConsistent` | core/src/main/kotlin/reversi/core/Reversi.kt:62-89 | every event keeps the game invariant |
| `GameProofs.RunConsistent` | core/src/main/kotlin/reversi/core/Reversi.kt:62-89 | every session reached by any sequence of events keeps the game invariant |
| `GameProofs.EndedGamesAreStuck` | core/src/main/kotlin/reversi/core/Reversi.kt:65-70 | in every game started by a reset, an ended game has no legal play for either colour and its winners are the tally |
| `GameProofs.CraftedBrackets` | core/src/main/kotlin/reversi/core/Logic.kt:46-66 | in the crafted position, black at (2,2) brackets (3,2) eastward and (2,3) southward |
| `GameProofs.TwoDirectionCapture` | core/src/main/kotlin/reversi/core/Logic.kt:41-67 | in the crafted position one play flips pieces in two directions, and the closing black pieces stay black |

The game invariant (`GameProofs.Consistent`) says four things:
- the board stays inside the grid;
- offered plays are exactly the legal plays, there is at least one, and no pass is pending;
- a pending pass means the colour that passed has no legal play;
- an ended game has no legal play for either colour, and its winners are the tally.

## Left out

- Rendering, animation, hover highlighting and the pointer/mouse wiring (`GameView`, `FlipBatch`, `BoardView`, `JvmMain`, the background layer): they have no effect on the game state.
- The game-over message text and its layer (`endGame` after the tally, `Reversi.kt` lines 111-134): this is presentation only. The model records the winners list the message is built from.
- The observable `RMap` and `Value` notifications: they are replaced by explicit session values and events.
  - `turn.update(color.next)` inside the handler is modelled as the next `ToMove` phase, which the next `HandleTurn` event handles.
  - `turn.updateForce(BLACK)` in `reset` is modelled by running the handler at once.
- Concurrency and re-entrancy of the listeners: the game is single-threaded and event-driven.
- The `Coord` constructor's runtime `assert(x >= 0 && y >= 0)` is expressed by the `nat` field types.
- 32-bit `Int` arithmetic is not modelled. `isLegalPlay` and `legalPlays` check bounds before they step, but `applyPlay` does not. A coordinate such as `Coord(Int.MAX_VALUE, 0)` would overflow at the first step. The wrapped value is negative and fails `inBounds`, exactly as the model's unbounded value does, so the behaviour is the same.
- Determinism and idempotence of the operations need no separate statement: every operation is a pure function.
- The turn handler's pass flag is a local variable of the set-up code, which `reset` does not clear. The model carries it in the session. On the 8x8 board the flag is harmless, because a reset always offers black its four opening plays and so clears it (`GameProofs.ResetStartsGame`).
- `GameProofs.ResetStartsGame`, `GameProofs.OpeningPlays`, the opening lemmas, the game-invariant lemmas and `GameProofs.EndedGamesAreStuck`: these are proved for the 8x8 board the game uses, not for every board size.
