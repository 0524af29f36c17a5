# Battleship board state machine

A model of `StateManager`, the class that owns one Battleship player's board.
The board is a 10x10 grid of cells, each `Blank`, `Ship`, `Hit` or `Miss`,
indexed `board[col, row]` as in the C# code. The class also holds a
`gameStarted` flag, and it enforces the lifecycle uninitialised -> set up
(`InitBoard`) -> active (`StartGame`). It validates coordinates and ship
geometry, places ships all or nothing, resolves attacks and detects loss.

Files:

- `Consts.dfy`: the board size, the cell states, the two directions and the
  four display glyphs.
- `Errors.dfy`: the four exception kinds as an `Error` datatype. `Outcome` and
  `Result` carry them back in place of a throw.
- `StateManager.dfy`: the class `StateManager`. Its fields are an
  `array2?<CellType>` and a `bool`. Its methods change them in place, and the
  class invariant `Valid()` says that a board is 10x10 and that a started game
  has a board. The coordinate guards and the per-cell effect of an attack are
  pure functions beside the class. The ghost view `ShipCells()` is the set of
  cells still holding an unhit ship, and `CurrentPhase()` is the lifecycle
  phase.
- `Display.dfy`: the text that `PrintBoard` writes, as a pure function
  `Render`, with its layout proved.
- `Demo.dfy`: the driver's call sequences and small scenarios of the
  placement and lifecycle rules, proved to give the stated results from the `StateManager` contracts alone.

Every guard fires in the order the code checks it. A failed guard returns
`Err`/`Fail` and changes nothing. A collision returns `Ok(false)`, and a
repeated attack on a `Hit` cell returns `Ok(false)`; neither is an error.
`InitBoard` may be called again before the start. It allocates a fresh
all-`Blank` board, which discards any ships placed earlier. `AddShip` is not
gated on the game having started: the code checks only that a board exists,
and the demo driver relies on this.

The cell states keep the code's names (`Blank` for an empty cell), and every
cell is read as `board[col, row]`, column first, exactly as the code indexes
its array, while the operations take their arguments row first.

## Model

| member | source | states |
|---|---|---|
| `Battleship.AssertValidCoordinates` | battleship/StateManager.cs:220-226 | passes exactly when row and column are both in 0..BoardSize-1, the index range of the array; otherwise fails with InvalidCoordinates |
| `Battleship.AssertValidShipCoordinates` | battleship/StateManager.cs:202-212 | fails only with InvalidCoordinates; passes exactly when both endpoints are on the board, they share a row or a column, and start <= end on both axes; when it passes, the rectangle AddShip scans is the same set of cells as the run the fill writes, and every cell of that run is on the board |
| `Battleship.AttackClearsShip` | battleship/StateManager.cs:80-91 | an attack never leaves a Ship in the cell, a Hit stays Hit, and the cell becomes Hit from a non-Hit state exactly when it held a Ship |
| `Battleship.RepeatedAttackIsNoOp` | battleship/StateManager.cs:80-91 | attacking a cell a second time leaves it as the first attack did and finds no Ship there, so it reports no hit |
| `Battleship.StateManager.constructor` | battleship/StateManager.cs:13-17 | a new manager has no board and has not started, and satisfies the class invariant |
| `Battleship.StateManager.AssertBoardInit` | battleship/StateManager.cs:186-192 | passes exactly when the manager is past the uninitialised phase; otherwise fails with BoardNotInitialised |
| `Battleship.StateManager.AssertGameStarted` | battleship/StateManager.cs:232-238 | passes exactly in the active phase; otherwise fails with GameNotStarted |
| `Battleship.StateManager.AssertGameNotStarted` | battleship/StateManager.cs:244-250 | passes exactly outside the active phase; otherwise fails with GameAlreadyStarted |
| `Battleship.StateManager.InitBoard` | battleship/StateManager.cs:22-30 | once started: fails with GameAlreadyStarted and keeps the same board, every cell and the active phase; otherwise: a freshly allocated board with every cell Blank, the set-up phase, and the class invariant kept |
| `Battleship.StateManager.StartGame` | battleship/StateManager.cs:35-40 | without a board: BoardNotInitialised, checked first; when already active: GameAlreadyStarted; from set-up: Pass and the active phase; the board reference and every cell are unchanged, and an active game stays active |
| `Battleship.StateManager.AddShip` | battleship/StateManager.cs:50-68 | no board: BoardNotInitialised; invalid endpoints: InvalidCoordinates with the board unchanged; a run holding any non-Blank cell: Ok(false) with the board unchanged; otherwise Ok(true), exactly the run's cells become Ship, every other cell is unchanged, and the ship cells grow by exactly the run; the phase never changes |
| `Battleship.StateManager.ReceiveAttack` | battleship/StateManager.cs:76-92 | not active: GameNotStarted, checked before the coordinates, with the board unchanged; off the board: InvalidCoordinates with the board unchanged; otherwise Ok(the cell held a Ship), the cell becomes its attacked state (Ship to Hit, Hit stays Hit, Blank or Miss to Miss), no other cell changes, and the attacked cell leaves the set of ship cells |
| `Battleship.StateManager.HasLost` | battleship/StateManager.cs:98-113 | not active: GameNotStarted; active: Ok(true) exactly when no cell holds a Ship; it changes nothing |
| `Battleship.StateManager.FillBoardInOneDirection` | battleship/StateManager.cs:124-142 | without a board: BoardNotInitialised; otherwise every cell of the straight run (down the start column when the columns agree, else along the start row) holds the filling and every other cell is unchanged |
| `Display.MarkersDistinct` | battleship/Constants.cs:11 | the four cell states have four different glyphs, none a space or a newline |
| `Display.RenderCells` | battleship/StateManager.cs:155-174 | the text of one row from a given column on has two characters per remaining cell |
| `Display.RenderRows` | battleship/StateManager.cs:153-177 | the text of the rows from a given row on has 21 characters per remaining row |
| `Display.Render` | battleship/StateManager.cs:148-180 | without a board: BoardNotInitialised; otherwise a picture of 212 characters |
| `Display.RenderCellsAt` | battleship/StateManager.cs:155-174 | in one row's text, the glyph of column k is at position 2k and a space follows it |
| `Display.RenderRowsAt` | battleship/StateManager.cs:153-177 | in the rows' text, each cell's glyph is at its row-and-column offset with a space after it, and each row ends with a newline |
| `Display.RenderLayout` | battleship/StateManager.cs:150-179 | the picture starts and ends with a newline; the glyph of cell (row, col), read at board[col, row], sits at 1 + 21*row + 2*col with a space after it; each row's line ends with a newline |
| `Display.RenderDeterminesBoard` | battleship/StateManager.cs:157-171 | two boards with the same picture hold the same cells, so the glyph mapping loses nothing |
| `Demo.SetUpOneShip` | battleship/Program.cs:25-31 | after InitBoard, a ship on row 0 from column 2 to 6 and StartGame, the board is exactly that ship and HasLost reports false |
| `Demo.AttackOneShip` | battleship/Program.cs:32-44 | one attack along row 0 of the one-ship game hits exactly from column 2 on, and the player has lost exactly after the attack on column 6 |
| `Demo.OneShipGame` | battleship/Program.cs:25-44 | the seven attacks report miss, miss, hit, hit, hit, hit, hit, and HasLost reports false until the last attack and true after it |
| `Demo.ShipsAfterStart` | battleship/Program.cs:10-22 | four disjoint ships placed after StartGame are all accepted, and the player has not lost |
| `Demo.PlacementRules` | battleship/StateManager.cs:50-68 | on a fresh board: a ship is accepted, an overlapping ship is refused with Ok(false), a one-cell ship is accepted, and reversed or diagonal endpoints give InvalidCoordinates |
| `Demo.LifecycleErrors` | battleship/StateManager.cs:22-113 | out-of-order calls fail with the matching error kinds; an off-board attack fails in the active phase; a started board that holds no ships has already lost |
| `Demo.AttackTwice` | battleship/StateManager.cs:76-92 | two attacks on one cell leave the board as one attack does, and the second reports no hit |

## Left out

- Console output: `PrintBoard` is modelled as the string `Render` returns, not as writes to the console.
- The exception messages from battleship/Exceptions.cs are left out. They are only written to the error stream, including the coordinates they print in (col, row) order; the model keeps only the error kind.
- The demo driver in battleship/Program.cs is modelled only through its call sequences (`Demo`), without its printing and its `Thread.Sleep` pauses.
- `FillBoardInOneDirection`: requires both endpoints on the board rather than modelling the out-of-range exception the runtime would throw; both callers validate the endpoints first.
- Integer width: C# `int` is 32-bit, but the only arithmetic is `end + 1` on an index already checked to be at most 9, so no wrap-around can happen and the model uses unbounded integers.
