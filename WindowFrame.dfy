/** The frame around one window: its local size and drag state, the motion
    values holding its position, and the resize session that lives between a
    mouse-down on the resize handle and the following mouse-up. Calls to the
    frame's callbacks are returned as values. */
module WindowFrame {
  import opened Wrappers
  import opened Geometry

  const MinWidth := 300
  const MinHeight := 200

  function Max(a: int, b: int): int {
    if a < b then b else a
  }

  /** The size a mouse move sets: the size the resize began with, moved by the
      pointer's travel since then, but never narrower than 300 or lower than 200. */
  function ClampResize(start: Size, dx: int, dy: int): (r: Size)
    ensures r.width >= MinWidth && r.height >= MinHeight
    ensures r.width >= start.width + dx && r.height >= start.height + dy
    ensures r.width == MinWidth || r.width == start.width + dx
    ensures r.height == MinHeight || r.height == start.height + dy
  {
    Size(Max(MinWidth, start.width + dx), Max(MinHeight, start.height + dy))
  }

  /** What the resize handle's mouse-down captures: the pointer position and
      the frame's size at that moment. */
  datatype ResizeSession = ResizeSession(startX: int, startY: int, start: Size)

  class Frame {
    var isMaximized: bool
    var isMinimized: bool
    var isDragging: bool
    var size: Size
    var x: int
    var y: int
    var resize: Option<ResizeSession>

    constructor (maximized: bool, minimized: bool, initialPosition: Position, initialSize: Size)
      ensures isMaximized == maximized && isMinimized == minimized
      ensures !isDragging && size == initialSize
      ensures x == initialPosition.x && y == initialPosition.y
      ensures resize.None?
    {
      isMaximized := maximized;
      isMinimized := minimized;
      isDragging := false;
      size := initialSize;
      x := initialPosition.x;
      y := initialPosition.y;
      resize := None;
    }

    /** A minimized frame renders nothing, so it receives no pointer events. */
    predicate Renders()
      reads this
    {
      !isMinimized
    }

    /** Dragging is switched off while the frame is maximized. */
    predicate Draggable()
      reads this
    {
      !isMaximized
    }

    /** New `isMaximized` and `isMinimized` props from the window list; the
        local state survives the re-render. */
    method SetFlags(maximized: bool, minimized: bool)
      modifies this
      ensures isMaximized == maximized && isMinimized == minimized
      ensures isDragging == old(isDragging) && size == old(size)
      ensures x == old(x) && y == old(y) && resize == old(resize)
    {
      isMaximized := maximized;
      isMinimized := minimized;
    }

    /** `handleDragStart`: refused while maximized; otherwise the frame is
        dragging and `onFocus` is called. (A plain mouse-down on the frame,
        `onMouseDown={onFocus}`, calls `onFocus` with no state of its own; in
        the model that is `Manager.Focus` of the frame's id.) */
    method DragStart() returns (focus: bool)
      requires Renders()
      modifies this
      ensures focus <==> !old(isMaximized)
      ensures old(isMaximized) ==> isDragging == old(isDragging)
      ensures !old(isMaximized) ==> isDragging
      ensures isMaximized == old(isMaximized) && isMinimized == old(isMinimized)
      ensures size == old(size) && x == old(x) && y == old(y) && resize == old(resize)
    {
      if isMaximized {
        return false;
      }
      isDragging := true;
      focus := true;
    }

    /** `handleDragEnd`: the position moves by the drag offset, and exactly
        the new position is reported to `onPositionChange`. */
    method DragEnd(dx: int, dy: int) returns (reported: Position)
      requires Renders() && Draggable()
      modifies this
      ensures !isDragging
      ensures x == old(x) + dx && y == old(y) + dy
      ensures reported == Position(x, y)
      ensures isMaximized == old(isMaximized) && isMinimized == old(isMinimized)
      ensures size == old(size) && resize == old(resize)
    {
      isDragging := false;
      x := x + dx;
      y := y + dy;
      reported := Position(x, y);
    }

    /** `handleResizeStart`: refused while maximized; otherwise the pointer
        position and the current size are captured. */
    method ResizeStart(clientX: int, clientY: int)
      requires Renders()
      modifies this
      ensures old(isMaximized) ==> resize == old(resize)
      ensures !old(isMaximized) ==> resize == Some(ResizeSession(clientX, clientY, old(size)))
      ensures isMaximized == old(isMaximized) && isMinimized == old(isMinimized)
      ensures isDragging == old(isDragging) && size == old(size) && x == old(x) && y == old(y)
    {
      if isMaximized {
        return;
      }
      resize := Some(ResizeSession(clientX, clientY, size));
    }

    /** The document's mouse-move listener, present only during a resize. */
    method ResizeMove(clientX: int, clientY: int)
      modifies this
      ensures old(resize).None? ==> size == old(size)
      ensures old(resize).Some? ==>
        var s := old(resize).value;
        size == ClampResize(s.start, clientX - s.startX, clientY - s.startY)
      ensures old(resize).Some? ==> size.width >= MinWidth && size.height >= MinHeight
      ensures isMaximized == old(isMaximized) && isMinimized == old(isMinimized)
      ensures isDragging == old(isDragging) && x == old(x) && y == old(y) && resize == old(resize)
    {
      if resize.Some? {
        var s := resize.value;
        size := ClampResize(s.start, clientX - s.startX, clientY - s.startY);
      }
    }

    /** The document's mouse-up listener: it reports the `size` it closed
        over, which is the size the resize began with, and ends the session. */
    method ResizeEnd() returns (reported: Option<Size>)
      modifies this
      ensures old(resize).None? ==> reported.None?
      ensures old(resize).Some? ==> reported == Some(old(resize).value.start)
      ensures resize.None?
      ensures isMaximized == old(isMaximized) && isMinimized == old(isMinimized)
      ensures isDragging == old(isDragging) && size == old(size) && x == old(x) && y == old(y)
    {
      if resize.Some? {
        reported := Some(resize.value.start);
      } else {
        reported := None;
      }
      resize := None;
    }

    /** The mouse-up listener as evidently intended: it reports the size the
        last mouse move set, so the window list learns the size on screen. */
    method ResizeEndReportingCurrent() returns (reported: Option<Size>)
      modifies this
      ensures old(resize).None? ==> reported.None?
      ensures old(resize).Some? ==> reported == Some(size)
      ensures resize.None?
      ensures isMaximized == old(isMaximized) && isMinimized == old(isMinimized)
      ensures isDragging == old(isDragging) && size == old(size) && x == old(x) && y == old(y)
    {
      if resize.Some? {
        reported := Some(size);
      } else {
        reported := None;
      }
      resize := None;
    }
  }

  /** A resize that widens an 800 by 600 window by 100 and heightens it by 50
      reports 800 by 600 at mouse-up while the frame shows 900 by 650. */
  method StaleResizeReport() returns (reported: Option<Size>, shown: Size)
    ensures reported == Some(Size(800, 600))
    ensures shown == Size(900, 650)
    ensures reported != Some(shown)
  {
    var f := new Frame(false, false, Position(100, 60), Size(800, 600));
    f.ResizeStart(500, 500);
    f.ResizeMove(600, 550);
    reported := f.ResizeEnd();
    shown := f.size;
  }

  /** With the corrected mouse-up, any resize reports exactly the clamped size
      the frame shows. */
  method ResizeReportsShownSize(start: Size, startX: int, startY: int, endX: int, endY: int)
    returns (reported: Option<Size>, shown: Size)
    ensures reported == Some(shown)
    ensures shown == ClampResize(start, endX - startX, endY - startY)
    ensures shown.width >= MinWidth && shown.height >= MinHeight
  {
    var f := new Frame(false, false, Position(0, 0), start);
    f.ResizeStart(startX, startY);
    f.ResizeMove(endX, endY);
    reported := f.ResizeEndReportingCurrent();
    shown := f.size;
  }
}
