/** The text picture of a board that PrintBoard writes: a leading newline,
    then one line per row holding each cell's glyph followed by a space, then
    a closing newline. Rows run top to bottom, columns left to right. */
module Display {
  import opened Consts
  import opened Errors

  /** The glyph shown for a cell. */
  function MarkerFor(cell: CellType): char
  {
    match cell
    case Ship => ShipMarker
    case Hit => HitMarker
    case Miss => MissMarker
    case Blank => BlankMarker
  }

  /** Different cell states are shown with different glyphs, so the picture
      loses nothing. */
  lemma MarkersDistinct(a: CellType, b: CellType)
    ensures MarkerFor(a) == MarkerFor(b) ==> a == b
    ensures MarkerFor(a) != ' ' && MarkerFor(a) != '\n'
  {
  }

  /** Length of a whole printed board. */
  const PictureLength: int := 212

  /** Where the glyph of cell (row, col) sits in the picture. */
  function GlyphIndex(row: int, col: int): int
  {
    1 + 21 * row + 2 * col
  }

  /** Where the newline that ends row sits in the picture. */
  function LineEndIndex(row: int): int
  {
    21 * (row + 1)
  }

  /** The glyph-and-space pairs of one row, from column col to the last. */
  function RenderCells(board: array2<CellType>, row: int, col: int): (s: string)
    requires board.Length0 == BoardSize && board.Length1 == BoardSize
    requires 0 <= row < BoardSize && 0 <= col <= BoardSize
    reads board
    ensures |s| == 2 * (BoardSize - col)
    decreases BoardSize - col
  {
    if col == BoardSize then "" else [MarkerFor(board[col, row]), ' '] + RenderCells(board, row, col + 1)
  }

  /** The printed lines of the rows from row to the last. */
  function RenderRows(board: array2<CellType>, row: int): (s: string)
    requires board.Length0 == BoardSize && board.Length1 == BoardSize
    requires 0 <= row <= BoardSize
    reads board
    ensures |s| == 21 * (BoardSize - row)
    decreases BoardSize - row
  {
    if row == BoardSize then "" else RenderCells(board, row, 0) + "\n" + RenderRows(board, row + 1)
  }

  /** The picture PrintBoard writes, or BoardNotInitialised without a board. */
  function Render(board: array2?<CellType>): (r: Result<string>)
    requires board != null ==> board.Length0 == BoardSize && board.Length1 == BoardSize
    reads board
    ensures board == null <==> r == Err(BoardNotInitialised)
    ensures board != null ==> r.Ok? && |r.value| == PictureLength
  {
    if board == null then Err(BoardNotInitialised) else Ok("\n" + RenderRows(board, 0) + "\n")
  }

  lemma {:induction false} RenderCellsAt(board: array2<CellType>, row: int, col: int, k: int)
    requires board.Length0 == BoardSize && board.Length1 == BoardSize
    requires 0 <= row < BoardSize && 0 <= col <= k < BoardSize
    ensures RenderCells(board, row, col)[2 * (k - col)] == MarkerFor(board[k, row])
    ensures RenderCells(board, row, col)[2 * (k - col) + 1] == ' '
    decreases k - col
  {
    if col < k {
      RenderCellsAt(board, row, col + 1, k);
    }
  }

  lemma {:induction false} RenderRowsAt(board: array2<CellType>, row: int, r: int, k: int)
    requires board.Length0 == BoardSize && board.Length1 == BoardSize
    requires 0 <= row <= r < BoardSize && 0 <= k < BoardSize
    ensures RenderRows(board, row)[21 * (r - row) + 2 * k] == MarkerFor(board[k, r])
    ensures RenderRows(board, row)[21 * (r - row) + 2 * k + 1] == ' '
    ensures RenderRows(board, row)[21 * (r - row) + 20] == '\n'
    decreases r - row
  {
    if row < r {
      RenderRowsAt(board, row + 1, r, k);
    } else {
      RenderCellsAt(board, row, 0, k);
    }
  }

  /** The layout of the picture: newlines first and last and after every
      row, and each cell's glyph, followed by a space, at its place. */
  lemma RenderLayout(board: array2<CellType>)
    requires board.Length0 == BoardSize && board.Length1 == BoardSize
    ensures Render(board).Ok?
    ensures Render(board).value[0] == '\n' && Render(board).value[PictureLength - 1] == '\n'
    ensures forall row, col :: 0 <= row < BoardSize && 0 <= col < BoardSize ==>
      Render(board).value[GlyphIndex(row, col)] == MarkerFor(board[col, row]) &&
      Render(board).value[GlyphIndex(row, col) + 1] == ' '
    ensures forall row :: 0 <= row < BoardSize ==> Render(board).value[LineEndIndex(row)] == '\n'
  {
    var s := Render(board).value;
    forall row, col | 0 <= row < BoardSize && 0 <= col < BoardSize
      ensures s[GlyphIndex(row, col)] == MarkerFor(board[col, row])
      ensures s[GlyphIndex(row, col) + 1] == ' '
    {
      RenderRowsAt(board, 0, row, col);
    }
    forall row | 0 <= row < BoardSize
      ensures s[LineEndIndex(row)] == '\n'
    {
      RenderRowsAt(board, 0, row, 0);
    }
  }

  /** Two boards with the same picture hold the same cells. */
  lemma RenderDeterminesBoard(a: array2<CellType>, b: array2<CellType>)
    requires a.Length0 == BoardSize && a.Length1 == BoardSize
    requires b.Length0 == BoardSize && b.Length1 == BoardSize
    requires Render(a) == Render(b)
    ensures forall row, col :: 0 <= row < BoardSize && 0 <= col < BoardSize ==> a[col, row] == b[col, row]
  {
    RenderLayout(a);
    RenderLayout(b);
    forall row, col | 0 <= row < BoardSize && 0 <= col < BoardSize
      ensures a[col, row] == b[col, row]
    {
      MarkersDistinct(a[col, row], b[col, row]);
    }
  }
}
