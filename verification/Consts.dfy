/** Board dimensions, cell states, directions and display markers shared by
    the board state machine and its renderer. */
module Consts {

  /** Number of rows, and of columns, of a board. */
  const BoardSize: int := 10

  /** Largest valid row or column index. */
  const BoardEnd: int := 9

  /** What a single cell of the board holds. */
  datatype CellType = Blank | Ship | Hit | Miss

  /** Orientation of a straight run of cells. */
  datatype Direction = Vertical | Horizontal

  /** Display glyphs, one per cell state. */
  const BlankMarker: char := '~'
  const ShipMarker: char := 'O'
  const HitMarker: char := 'X'
  const MissMarker: char := '*'
}
