/** The `{ x, y }` and `{ width, height }` records shared by windows and icons.
    Coordinates are integers (pixels); fractional pointer offsets are not modelled. */
module Geometry {
  datatype Position = Position(x: int, y: int)
  datatype Size = Size(width: int, height: int)
}
