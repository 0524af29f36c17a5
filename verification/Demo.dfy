/** Call sequences a driver makes on a StateManager, with the results they
    must produce, proved from the StateManager contracts alone. */
module Demo {
  import opened Consts
  import opened Errors
  import opened Battleship

  /** The board of the one-ship game after `attacks` attacks along row 0,
      one per column from column 0 on: a ship on row 0, columns 2 to 6. */
  ghost function OneShipCell(attacks: int, row: int, col: int): CellType
  {
    if row == 0 && 2 <= col <= 6 then (if col < attacks then Hit else Ship)
    else if row == 0 && col < attacks then Miss
    else Blank
  }

  /** The set-up of the one-ship game: a fresh board, one ship on row 0 from
      column 2 to column 6, then StartGame. */
  method SetUpOneShip() returns (sm: StateManager, lost: Result<bool>)
    ensures fresh(sm) && fresh(sm.board)
    ensures sm.Valid() && sm.CurrentPhase() == Active
    ensures forall r, c :: OnBoard(r, c) ==> sm.board[c, r] == OneShipCell(0, r, c)
    ensures lost == Ok(false)
  {
    sm := new StateManager();
    var o := sm.InitBoard();
    var placed := sm.AddShip(0, 2, 0, 6);
    o := sm.StartGame();
    lost := sm.HasLost();
    assert (0, 2) in sm.ShipCells();
  }

  /** One attack of the one-ship game, on row 0 at column i. */
  method AttackOneShip(sm: StateManager, i: int) returns (hit: Result<bool>, lost: Result<bool>)
    requires 0 <= i < BoardSize - 3
    requires sm.Valid() && sm.CurrentPhase() == Active
    requires forall r, c :: OnBoard(r, c) ==> sm.board[c, r] == OneShipCell(i, r, c)
    modifies sm.board
    ensures sm.Valid() && sm.CurrentPhase() == Active && sm.board == old(sm.board)
    ensures forall r, c :: OnBoard(r, c) ==> sm.board[c, r] == OneShipCell(i + 1, r, c)
    ensures hit == Ok(2 <= i) && lost == Ok(i == 6)
  {
    hit := sm.ReceiveAttack(0, i);
    lost := sm.HasLost();
    if i < 6 {
      assert (0, 6) in sm.ShipCells();
    } else {
      assert forall p :: p !in sm.ShipCells();
    }
  }

  /** One ship on row 0, columns 2 to 6, is placed before the start and then
      attacked at columns 0 to 6 of row 0: two misses, five hits, and the
      player has lost only after the last of them. */
  method OneShipGame() returns (hits: seq<Result<bool>>, lost: seq<Result<bool>>)
    ensures hits == [Ok(false), Ok(false), Ok(true), Ok(true), Ok(true), Ok(true), Ok(true)]
    ensures lost == [Ok(false), Ok(false), Ok(false), Ok(false), Ok(false), Ok(false), Ok(false), Ok(true)]
  {
    var sm, l := SetUpOneShip();
    var b := sm.board;
    lost := [l];
    hits := [];
    for i := 0 to 7
      invariant sm.Valid() && sm.CurrentPhase() == Active && sm.board == b
      invariant forall r, c :: OnBoard(r, c) ==> b[c, r] == OneShipCell(i, r, c)
      invariant |hits| == i && forall k :: 0 <= k < i ==> hits[k] == Ok(2 <= k)
      invariant |lost| == i + 1 && forall k :: 0 <= k <= i ==> lost[k] == Ok(k == 7)
    {
      var r;
      r, l := AttackOneShip(sm, i);
      hits := hits + [r];
      lost := lost + [l];
    }
  }

  /** Ships placed after StartGame are accepted: placement is gated only on
      the board existing. Four disjoint ships all go in, and the player has
      not lost. */
  method ShipsAfterStart() returns (placed: seq<Result<bool>>, lost: Result<bool>)
    ensures placed == [Ok(true), Ok(true), Ok(true), Ok(true)]
    ensures lost == Ok(false)
  {
    var sm := new StateManager();
    var o := sm.InitBoard();
    o := sm.StartGame();
    var first := sm.AddShip(0, 0, 0, 5);
    var second := sm.AddShip(2, 0, 6, 0);
    var third := sm.AddShip(5, 5, 8, 5);
    var fourth := sm.AddShip(2, 8, 6, 8);
    placed := [first, second, third, fourth];
    assert (0, 0) in sm.ShipCells();
    lost := sm.HasLost();
  }

  /** The placement rules on a fresh board: a ship goes in, an overlapping
      one is refused without an error, a one-cell ship goes in, and reversed
      or diagonal endpoints are invalid coordinates. */
  method PlacementRules() returns (results: seq<Result<bool>>)
    ensures results == [Ok(true), Ok(false), Ok(true), Err(InvalidCoordinates), Err(InvalidCoordinates)]
  {
    var sm := new StateManager();
    var o := sm.InitBoard();
    var first := sm.AddShip(0, 0, 0, 4);
    var overlapping := sm.AddShip(0, 2, 0, 6);
    var single := sm.AddShip(3, 3, 3, 3);
    var reversed := sm.AddShip(0, 5, 0, 0);
    var diagonal := sm.AddShip(0, 0, 5, 5);
    results := [first, overlapping, single, reversed, diagonal];
  }

  /** Each lifecycle guard fires when the lifecycle is out of order. */
  method LifecycleErrors() returns (results: seq<Outcome>, answers: seq<Result<bool>>)
    ensures results == [Fail(BoardNotInitialised), Pass, Pass, Fail(GameAlreadyStarted), Fail(GameAlreadyStarted)]
    ensures answers == [Err(BoardNotInitialised), Err(GameNotStarted), Err(GameNotStarted),
                        Err(InvalidCoordinates), Err(InvalidCoordinates), Ok(true)]
  {
    var sm := new StateManager();
    var early := sm.StartGame();
    var shipFirst := sm.AddShip(0, 0, 0, 0);
    var init := sm.InitBoard();
    var lostEarly := sm.HasLost();
    var attackEarly := sm.ReceiveAttack(0, 0);
    var start := sm.StartGame();
    var again := sm.StartGame();
    var reinit := sm.InitBoard();
    var below := sm.ReceiveAttack(10, 0);
    var left := sm.ReceiveAttack(-1, 3);
    var lost := sm.HasLost();
    results := [early, init, start, again, reinit];
    answers := [shipFirst, lostEarly, attackEarly, below, left, lost];
  }

  /** Two attacks on one cell leave the board as one attack does, and the
      second reports no hit. */
  method AttackTwice(sm: StateManager, row: int, col: int) returns (first: Result<bool>, second: Result<bool>)
    requires sm.Valid() && sm.CurrentPhase() == Active && OnBoard(row, col)
    modifies sm.board
    ensures sm.Valid() && sm.CurrentPhase() == Active
    ensures first == Ok(old(sm.board[col, row]) == Ship) && second == Ok(false)
    ensures sm.board[col, row] == AfterAttack(old(sm.board[col, row]))
    ensures forall r, c :: OnBoard(r, c) && (r, c) != (row, col) ==> sm.board[c, r] == old(sm.board[c, r])
  {
    first := sm.ReceiveAttack(row, col);
    RepeatedAttackIsNoOp(old(sm.board[col, row]));
    second := sm.ReceiveAttack(row, col);
  }
}
