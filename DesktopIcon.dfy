/** One desktop icon: snapping to the 80-pixel grid, the drag that moves it and
    the keys that open it. */
module DesktopIcon {
  import opened Geometry

  const GridSize := 80

  /** `Math.round(v / 80) * 80` on an integer `v`. `Math.round` rounds halves
      toward positive infinity, so it is `floor(v / 80 + 1/2)`, which Dafny's
      division by a positive divisor computes as `(v + 40) / 80`. */
  function Snap(v: int): (r: int)
    ensures r % GridSize == 0
    ensures v - 40 < r <= v + 40
  {
    ((v + 40) / GridSize) * GridSize
  }

  /** Snapping yields the nearest grid line: it is the only multiple of 80
      within that half-open window around `v`, so a value exactly halfway
      between two lines goes to the upper one. */
  lemma SnapIsNearest(v: int, m: int)
    requires m % GridSize == 0 && v - 40 < m <= v + 40
    ensures m == Snap(v)
  {
  }

  /** Halves round up: 40 snaps to 80 and -40 snaps to 0. */
  lemma SnapHalves()
    ensures Snap(40) == 80 && Snap(-40) == 0 && Snap(39) == 0 && Snap(-41) == -80
  {
  }

  /** A grid line snaps to itself, so snapping twice is snapping once. */
  lemma SnapIdempotent(v: int)
    ensures Snap(Snap(v)) == Snap(v)
  {
    var r := Snap(v);
    SnapIsNearest(r, r);
  }

  /** Snapping never reverses the order of two values. */
  lemma SnapMonotone(v: int, w: int)
    requires v <= w
    ensures Snap(v) <= Snap(w)
  {
  }

  /** The icon's drag state and the motion values holding its position. */
  class Icon {
    var isDragging: bool
    var x: int
    var y: int

    constructor (position: Position)
      ensures !isDragging && x == position.x && y == position.y
    {
      isDragging := false;
      x := position.x;
      y := position.y;
    }

    method DragStart()
      modifies this
      ensures isDragging && x == old(x) && y == old(y)
    {
      isDragging := true;
    }

    /** `handleDragEnd`: each coordinate moves by the offset and snaps to the
        grid, and exactly that snapped pair goes to `onPositionChange`. */
    method DragEnd(dx: int, dy: int) returns (reported: Position)
      modifies this
      ensures !isDragging
      ensures x == Snap(old(x) + dx) && y == Snap(old(y) + dy)
      ensures reported == Position(x, y)
      ensures x % GridSize == 0 && y % GridSize == 0
    {
      isDragging := false;
      x := Snap(x + dx);
      y := Snap(y + dy);
      reported := Position(x, y);
    }
  }

  /** The icon's key handler opens it (`onDoubleClick`) for Enter and Space. */
  predicate Activates(key: string) {
    key == "Enter" || key == " "
  }

  /** Only those two keys open an icon; `Space` and `Return` are key names the
      handler does not know. */
  lemma ActivatingKeys()
    ensures Activates("Enter") && Activates(" ")
    ensures !Activates("Space") && !Activates("Return") && !Activates("enter") && !Activates("")
  {
  }
}
