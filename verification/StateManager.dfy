/** The board state machine of one Battleship player: a 10x10 grid of cells
    indexed board[col, row], a started flag, and the lifecycle
    uninitialised -> set up (InitBoard) -> active (StartGame). */
module Battleship {
  import opened Consts
  import opened Errors

  /** The lifecycle phase a StateManager is in. */
  datatype Phase = Uninitialised | Setup | Active

  /** (row, col) names a cell of the board. */
  predicate OnBoard(row: int, col: int)
  {
    0 <= row <= BoardEnd && 0 <= col <= BoardEnd
  }

  /** The two-coordinate check: a point must lie on the board. */
  function AssertValidCoordinates(row: int, col: int): (o: Outcome)
    ensures o == Pass <==> 0 <= row < BoardSize && 0 <= col < BoardSize
    ensures o != Pass ==> o == Fail(InvalidCoordinates)
  {
    if row < 0 || col < 0 || row > BoardEnd || col > BoardEnd then
      Fail(InvalidCoordinates)
    else
      Pass
  }

  /** Equal columns make a vertical run, anything else a horizontal one. */
  function DirectionOf(startCol: int, endCol: int): Direction
  {
    if startCol == endCol then Vertical else Horizontal
  }

  /** (row, col) lies in the rectangle AddShip scans for collisions. */
  predicate InScan(startRow: int, startCol: int, endRow: int, endCol: int, row: int, col: int)
  {
    startRow <= row <= endRow && startCol <= col <= endCol
  }

  /** (row, col) lies on the straight run that FillBoardInOneDirection writes. */
  predicate OnRun(startRow: int, startCol: int, endRow: int, endCol: int, row: int, col: int)
  {
    match DirectionOf(startCol, endCol)
    case Vertical => col == startCol && startRow <= row <= endRow
    case Horizontal => row == startRow && startCol <= col <= endCol
  }

  /** The cells, as (row, col) pairs, of the run between two endpoints. */
  ghost function RunCells(startRow: int, startCol: int, endRow: int, endCol: int): set<(int, int)>
  {
    set row, col | 0 <= row < BoardSize && 0 <= col < BoardSize && OnRun(startRow, startCol, endRow, endCol, row, col) :: (row, col)
  }

  /** The four-coordinate check: both endpoints on the board, collinear and in
      ascending order. Accepted endpoints make the scanned rectangle and the
      filled run the same cells, all on the board. */
  function AssertValidShipCoordinates(startRow: int, startCol: int, endRow: int, endCol: int): (o: Outcome)
    ensures o == Pass || o == Fail(InvalidCoordinates)
    ensures o == Pass <==>
      OnBoard(startRow, startCol) && OnBoard(endRow, endCol) &&
      (startRow == endRow || startCol == endCol) &&
      startRow <= endRow && startCol <= endCol
    ensures o == Pass ==> forall row, col ::
      InScan(startRow, startCol, endRow, endCol, row, col) <==> OnRun(startRow, startCol, endRow, endCol, row, col)
    ensures o == Pass ==> forall row, col ::
      OnRun(startRow, startCol, endRow, endCol, row, col) ==> OnBoard(row, col)
  {
    match AssertValidCoordinates(startRow, startCol)
    case Fail(e) => Fail(e)
    case Pass =>
      match AssertValidCoordinates(endRow, endCol)
      case Fail(e) => Fail(e)
      case Pass =>
        if (startRow != endRow && startCol != endCol) || startRow > endRow || startCol > endCol then
          Fail(InvalidCoordinates)
        else
          Pass
  }

  /** What an attack leaves in a cell: a ship is hit, a hit stays hit, and
      anything else becomes a miss. */
  function AfterAttack(cell: CellType): CellType
  {
    match cell
    case Ship => Hit
    case Hit => Hit
    case Blank => Miss
    case Miss => Miss
  }

  /** No attack leaves a ship behind, and a hit is never undone. */
  lemma AttackClearsShip(cell: CellType)
    ensures AfterAttack(cell) != Ship
    ensures cell == Hit ==> AfterAttack(cell) == Hit
    ensures cell == Ship <==> AfterAttack(cell) == Hit && cell != Hit
  {
  }

  /** Attacking a cell a second time reports no hit and changes nothing. */
  lemma RepeatedAttackIsNoOp(cell: CellType)
    ensures AfterAttack(AfterAttack(cell)) == AfterAttack(cell)
    ensures AfterAttack(cell) != Ship
  {
  }

  class StateManager {
    var board: array2?<CellType>
    var gameStarted: bool

    /** The class invariant: a board, once there, is 10x10, and a started
        game always has a board. */
    ghost predicate Valid()
      reads this
    {
      (board != null ==> board.Length0 == BoardSize && board.Length1 == BoardSize) &&
      (gameStarted ==> board != null)
    }

    ghost function CurrentPhase(): Phase
      reads this
    {
      if board == null then Uninitialised
      else if !gameStarted then Setup
      else Active
    }

    /** The cells, as (row, col) pairs, that hold an unhit ship. */
    ghost function ShipCells(): set<(int, int)>
      requires Valid() && board != null
      reads this, board
    {
      set row, col | 0 <= row < BoardSize && 0 <= col < BoardSize && board[col, row] == Ship :: (row, col)
    }

    ghost predicate AllBlank()
      requires Valid() && board != null
      reads this, board
    {
      forall row, col :: OnBoard(row, col) ==> board[col, row] == Blank
    }

    /** Every cell of the run between the endpoints is Blank. */
    ghost predicate RunIsClear(startRow: int, startCol: int, endRow: int, endCol: int)
      requires Valid() && board != null
      reads this, board
    {
      forall row, col :: OnBoard(row, col) && OnRun(startRow, startCol, endRow, endCol, row, col) ==>
        board[col, row] == Blank
    }

    constructor ()
      ensures Valid() && CurrentPhase() == Uninitialised
    {
      board := null;
      gameStarted := false;
    }

    function AssertBoardInit(): (o: Outcome)
      reads this
      ensures o == Pass <==> CurrentPhase() != Uninitialised
      ensures o != Pass ==> o == Fail(BoardNotInitialised)
    {
      if board == null then Fail(BoardNotInitialised) else Pass
    }

    function AssertGameStarted(): (o: Outcome)
      requires Valid()
      reads this
      ensures o == Pass <==> CurrentPhase() == Active
      ensures o != Pass ==> o == Fail(GameNotStarted)
    {
      if !gameStarted then Fail(GameNotStarted) else Pass
    }

    function AssertGameNotStarted(): (o: Outcome)
      requires Valid()
      reads this
      ensures o == Pass <==> CurrentPhase() != Active
      ensures o != Pass ==> o == Fail(GameAlreadyStarted)
    {
      if gameStarted then Fail(GameAlreadyStarted) else Pass
    }

    /** Allocates a fresh all-Blank board; refused once the game has started.
        Calling it again before the start discards every placed ship. */
    method InitBoard() returns (o: Outcome)
      requires Valid()
      modifies this
      ensures Valid()
      ensures old(CurrentPhase()) == Active ==>
        o == Fail(GameAlreadyStarted) && board == old(board) && unchanged(board) && CurrentPhase() == Active
      ensures old(CurrentPhase()) != Active ==>
        o == Pass && fresh(board) && CurrentPhase() == Setup && AllBlank()
    {
      o := AssertGameNotStarted();
      if o.Fail? {
        return;
      }
      var grid := new CellType[BoardSize, BoardSize];
      board := grid;
      for row := 0 to BoardSize
        invariant board == grid && !gameStarted && Valid()
        invariant forall r, c :: 0 <= r < row && 0 <= c < BoardSize ==> grid[c, r] == Blank
      {
        var filled := FillBoardInOneDirection(row, 0, row, BoardEnd, Blank);
      }
    }

    /** Moves the game from set-up to active; the board is left as it is. */
    method StartGame() returns (o: Outcome)
      requires Valid()
      modifies this`gameStarted
      ensures Valid() && board == old(board) && (board != null ==> unchanged(board))
      ensures old(CurrentPhase()) == Uninitialised ==>
        o == Fail(BoardNotInitialised) && CurrentPhase() == Uninitialised
      ensures old(CurrentPhase()) == Setup ==> o == Pass && CurrentPhase() == Active
      ensures old(CurrentPhase()) == Active ==>
        o == Fail(GameAlreadyStarted) && CurrentPhase() == Active
    {
      o := AssertBoardInit();
      if o.Fail? {
        return;
      }
      o := AssertGameNotStarted();
      if o.Fail? {
        return;
      }
      gameStarted := true;
    }

    /** Places a ship between two endpoints, all or nothing. Returns Ok(false)
        and leaves the board alone when a cell of the run is taken; not gated
        on the game having started. */
    method AddShip(startRow: int, startCol: int, endRow: int, endCol: int) returns (res: Result<bool>)
      requires Valid()
      modifies board
      ensures Valid() && CurrentPhase() == old(CurrentPhase())
      ensures board == null ==> res == Err(BoardNotInitialised)
      ensures board != null && AssertValidShipCoordinates(startRow, startCol, endRow, endCol) != Pass ==>
        res == Err(InvalidCoordinates) && unchanged(board)
      ensures (board != null && AssertValidShipCoordinates(startRow, startCol, endRow, endCol) == Pass &&
               !old(RunIsClear(startRow, startCol, endRow, endCol))) ==>
        res == Ok(false) && unchanged(board)
      ensures (board != null && AssertValidShipCoordinates(startRow, startCol, endRow, endCol) == Pass &&
               old(RunIsClear(startRow, startCol, endRow, endCol))) ==>
        res == Ok(true) &&
        (forall row, col :: OnBoard(row, col) ==>
          board[col, row] == if OnRun(startRow, startCol, endRow, endCol, row, col) then Ship else old(board[col, row])) &&
        ShipCells() == old(ShipCells()) + RunCells(startRow, startCol, endRow, endCol)
    {
      var guard := AssertBoardInit();
      if guard.Fail? {
        return Err(guard.error);
      }
      guard := AssertValidShipCoordinates(startRow, startCol, endRow, endCol);
      if guard.Fail? {
        return Err(guard.error);
      }
      for row := startRow to endRow + 1
        invariant forall r, c :: startRow <= r < row && startCol <= c <= endCol ==> board[c, r] == Blank
      {
        for col := startCol to endCol + 1
          invariant forall r, c :: startRow <= r < row && startCol <= c <= endCol ==> board[c, r] == Blank
          invariant forall c :: startCol <= c < col ==> board[c, row] == Blank
        {
          if board[col, row] != Blank {
            assert OnRun(startRow, startCol, endRow, endCol, row, col);
            return Ok(false);
          }
        }
      }
      var filled := FillBoardInOneDirection(startRow, startCol, endRow, endCol, Ship);
      assert forall p :: p in ShipCells() <==> p in old(ShipCells()) || p in RunCells(startRow, startCol, endRow, endCol);
      return Ok(true);
    }

    /** Resolves an attack on one cell; only that cell can change. */
    method ReceiveAttack(attackRow: int, attackCol: int) returns (res: Result<bool>)
      requires Valid()
      modifies board
      ensures Valid() && CurrentPhase() == old(CurrentPhase())
      ensures old(CurrentPhase()) != Active ==>
        res == Err(GameNotStarted) && (board != null ==> unchanged(board))
      ensures old(CurrentPhase()) == Active && !OnBoard(attackRow, attackCol) ==>
        res == Err(InvalidCoordinates) && unchanged(board)
      ensures old(CurrentPhase()) == Active && OnBoard(attackRow, attackCol) ==>
        res == Ok(old(board[attackCol, attackRow]) == Ship) &&
        board[attackCol, attackRow] == AfterAttack(old(board[attackCol, attackRow])) &&
        (forall row, col :: OnBoard(row, col) && (row, col) != (attackRow, attackCol) ==>
          board[col, row] == old(board[col, row])) &&
        ShipCells() == old(ShipCells()) - {(attackRow, attackCol)}
    {
      var guard := AssertGameStarted();
      if guard.Fail? {
        return Err(guard.error);
      }
      guard := AssertValidCoordinates(attackRow, attackCol);
      if guard.Fail? {
        return Err(guard.error);
      }
      var attackedCell := board[attackCol, attackRow];
      if attackedCell == Ship {
        board[attackCol, attackRow] := Hit;
        assert forall p :: p in ShipCells() <==> p in old(ShipCells()) && p != (attackRow, attackCol);
        return Ok(true);
      }
      if attackedCell != Hit {
        board[attackCol, attackRow] := Miss;
      }
      assert forall p :: p in ShipCells() <==> p in old(ShipCells()) && p != (attackRow, attackCol);
      return Ok(false);
    }

    /** The player has lost when no cell still holds an unhit ship. Reads only. */
    method HasLost() returns (res: Result<bool>)
      requires Valid()
      ensures CurrentPhase() != Active ==> res == Err(GameNotStarted)
      ensures CurrentPhase() == Active ==> res == Ok(ShipCells() == {})
    {
      var guard := AssertGameStarted();
      if guard.Fail? {
        return Err(guard.error);
      }
      for row := 0 to BoardSize
        invariant forall r, c :: 0 <= r < row && 0 <= c < BoardSize ==> board[c, r] != Ship
      {
        for col := 0 to BoardSize
          invariant forall r, c :: 0 <= r < row && 0 <= c < BoardSize ==> board[c, r] != Ship
          invariant forall c :: 0 <= c < col ==> board[c, row] != Ship
        {
          if board[col, row] == Ship {
            assert (row, col) in ShipCells();
            return Ok(false);
          }
        }
      }
      return Ok(true);
    }

    /** Writes filling into every cell of the run between the endpoints: down
        one column when the columns agree, otherwise along the start row. */
    method FillBoardInOneDirection(startRow: int, startCol: int, endRow: int, endCol: int, filling: CellType)
      returns (o: Outcome)
      requires Valid()
      requires OnBoard(startRow, startCol) && OnBoard(endRow, endCol)
      modifies board
      ensures board == null ==> o == Fail(BoardNotInitialised)
      ensures board != null ==> o == Pass
      ensures board != null ==> forall row, col :: OnBoard(row, col) ==>
        board[col, row] == if OnRun(startRow, startCol, endRow, endCol, row, col) then filling else old(board[col, row])
    {
      o := AssertBoardInit();
      if o.Fail? {
        return;
      }
      var direction := DirectionOf(startCol, endCol);
      if direction == Vertical {
        var row := startRow;
        while row < endRow + 1
          invariant row == startRow || startRow < row <= endRow + 1
          invariant forall r, c :: OnBoard(r, c) ==>
            board[c, r] == if c == startCol && startRow <= r < row then filling else old(board[c, r])
        {
          board[startCol, row] := filling;
          row := row + 1;
        }
        assert forall r, c :: OnRun(startRow, startCol, endRow, endCol, r, c) <==> c == startCol && startRow <= r < row;
      } else {
        var col := startCol;
        while col < endCol + 1
          invariant col == startCol || startCol < col <= endCol + 1
          invariant forall r, c :: OnBoard(r, c) ==>
            board[c, r] == if r == startRow && startCol <= c < col then filling else old(board[c, r])
        {
          board[col, startRow] := filling;
          col := col + 1;
        }
        assert forall r, c :: OnRun(startRow, startCol, endRow, endCol, r, c) <==> r == startRow && startCol <= c < col;
      }
    }
  }
}
