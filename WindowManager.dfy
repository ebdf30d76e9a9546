/** The window manager hook: a list of window records, the active window id and
    a z-order counter, changed in place by one operation per user action. */
module WindowManager {
  import opened Wrappers
  import opened Geometry
  import opened Seqs

  datatype Window = Window(
    id: string,
    title: string,
    icon: string,
    isOpen: bool,
    isMinimized: bool,
    isMaximized: bool,
    zIndex: int,
    position: Position,
    size: Size)

  /** What `getWindowProps` hands out: a window without its `isOpen` flag. */
  datatype WindowProps = WindowProps(
    id: string,
    title: string,
    icon: string,
    isMaximized: bool,
    isMinimized: bool,
    zIndex: int,
    position: Position,
    size: Size)

  const DefaultSize := Size(800, 600)
  const WindowOffset := 30
  const InitialZIndex := 100

  predicate HasId(ws: seq<Window>, id: string) {
    exists i :: 0 <= i < |ws| && ws[i].id == id
  }

  predicate UniqueIds(ws: seq<Window>) {
    forall i, j :: 0 <= i < j < |ws| ==> ws[i].id != ws[j].id
  }

  predicate AllOpen(ws: seq<Window>) {
    forall i :: 0 <= i < |ws| ==> ws[i].isOpen
  }

  /** `findIndex(w => w.id === id)`: the first index with that id, or -1. */
  function IndexOf(ws: seq<Window>, id: string): (r: int)
    ensures -1 <= r < |ws|
    ensures r == -1 <==> !HasId(ws, id)
    ensures r >= 0 ==> ws[r].id == id && forall j :: 0 <= j < r ==> ws[j].id != id
    decreases |ws|
  {
    if ws == [] then -1
    else if ws[0].id == id then 0
    else
      var k := IndexOf(ws[1..], id);
      assert forall j :: 1 <= j < |ws| ==> ws[j] == ws[1..][j - 1];
      if k == -1 then -1 else k + 1
  }

  /** `find(w => w.id === id)`. */
  function Find(ws: seq<Window>, id: string): (r: Option<Window>)
    ensures r.None? <==> !HasId(ws, id)
    ensures r.Some? ==> r.value.id == id && r.value == ws[IndexOf(ws, id)]
  {
    var k := IndexOf(ws, id);
    if k == -1 then None else Some(ws[k])
  }

  /** The windows that are open and not minimized, in list order. */
  function Visible(ws: seq<Window>): seq<Window> {
    Filter((w: Window) => w.isOpen && !w.isMinimized, ws)
  }

  /** The staggered position of a new window when `openCount` windows are visible. */
  function StaggeredPosition(openCount: nat): (p: Position)
    ensures 100 <= p.x <= 290 && 60 <= p.y <= 180
  {
    var step := openCount * WindowOffset;
    assert step % 200 <= 190 by { ModOfMultipleOf10(openCount * 3, 200); }
    assert step % 150 <= 120 by { ModOfMultipleOf30(openCount, 150); }
    Position(100 + step % 200, 60 + step % 150)
  }

  lemma ModOfMultipleOf10(k: nat, m: nat)
    requires m == 200
    ensures (k * 10) % m <= 190
  {
    var r := (k * 10) % m;
    var q := (k * 10) / m;
    assert k * 10 == q * m + r;
    assert r == 10 * (k - 20 * q);
  }

  lemma ModOfMultipleOf30(k: nat, m: nat)
    requires m == 150
    ensures (k * 30) % m <= 120
  {
    var r := (k * 30) % m;
    var q := (k * 30) / m;
    assert k * 30 == q * m + r;
    assert r == 30 * (k - 5 * q);
  }

  function NewWindow(id: string, title: string, icon: string, z: int, position: Position): Window {
    Window(id, title, icon, true, false, false, z, position, DefaultSize)
  }

  /** The map done by focusing (and by re-opening): the windows with that id
      are restored and given z-order `z`. */
  function Raise(ws: seq<Window>, id: string, z: int): seq<Window> {
    seq(|ws|, i requires 0 <= i < |ws| =>
      if ws[i].id == id then ws[i].(isMinimized := false, zIndex := z) else ws[i])
  }

  function SetMinimized(ws: seq<Window>, id: string): seq<Window> {
    seq(|ws|, i requires 0 <= i < |ws| =>
      if ws[i].id == id then ws[i].(isMinimized := true) else ws[i])
  }

  function ToggleMaximized(ws: seq<Window>, id: string): seq<Window> {
    seq(|ws|, i requires 0 <= i < |ws| =>
      if ws[i].id == id then ws[i].(isMaximized := !ws[i].isMaximized) else ws[i])
  }

  function SetPosition(ws: seq<Window>, id: string, position: Position): seq<Window> {
    seq(|ws|, i requires 0 <= i < |ws| =>
      if ws[i].id == id then ws[i].(position := position) else ws[i])
  }

  function SetSize(ws: seq<Window>, id: string, size: Size): seq<Window> {
    seq(|ws|, i requires 0 <= i < |ws| =>
      if ws[i].id == id then ws[i].(size := size) else ws[i])
  }

  /** `prev.filter(w => w.id !== id)`. */
  function Without(ws: seq<Window>, id: string): seq<Window> {
    Filter((w: Window) => w.id != id, ws)
  }

  function LastId(ws: seq<Window>): Option<string> {
    if ws == [] then None else Some(ws[|ws| - 1].id)
  }

  /** The last element of a filtered window list, found in the unfiltered list. */
  lemma LastIdOfFilter(p: Window -> bool, ws: seq<Window>)
    ensures LastId(Filter(p, ws)).None? <==> forall i :: 0 <= i < |ws| ==> !p(ws[i])
    ensures LastId(Filter(p, ws)).Some? ==>
      exists i :: 0 <= i < |ws| && p(ws[i]) && ws[i].id == LastId(Filter(p, ws)).value
                && forall j :: i < j < |ws| ==> !p(ws[j])
  {
    if Filter(p, ws) != [] {
      FilterLast(p, ws);
    }
  }

  /** The active id chosen when the active window `id` is closed: the last
      other open window of the list, or none if there is no other. */
  function ActiveAfterClose(ws: seq<Window>, id: string): (r: Option<string>)
    ensures r != Some(id)
    ensures r.None? <==> forall i :: 0 <= i < |ws| ==> ws[i].id == id || !ws[i].isOpen
    ensures r.Some? ==>
      exists i :: 0 <= i < |ws| && ws[i].id == r.value && ws[i].isOpen
                && forall j :: i < j < |ws| ==> ws[j].id == id || !ws[j].isOpen
  {
    var p := (w: Window) => w.id != id && w.isOpen;
    LastIdOfFilter(p, ws);
    LastId(Filter(p, ws))
  }

  /** The active id chosen when the active window `id` is minimized: the last
      other window of the list that is open and not minimized, or none. */
  function ActiveAfterMinimize(ws: seq<Window>, id: string): (r: Option<string>)
    ensures r != Some(id)
    ensures r.None? <==> forall i :: 0 <= i < |ws| ==> ws[i].id == id || !ws[i].isOpen || ws[i].isMinimized
    ensures r.Some? ==>
      exists i :: 0 <= i < |ws| && ws[i].id == r.value && ws[i].isOpen && !ws[i].isMinimized
                && forall j :: i < j < |ws| ==> ws[j].id == id || !ws[j].isOpen || ws[j].isMinimized
  {
    var p := (w: Window) => w.id != id && w.isOpen && !w.isMinimized;
    LastIdOfFilter(p, ws);
    LastId(Filter(p, ws))
  }

  function Props(w: Window): WindowProps {
    WindowProps(w.id, w.title, w.icon, w.isMaximized, w.isMinimized, w.zIndex, w.position, w.size)
  }

  class Manager {
    var windows: seq<Window>
    var active: Option<string>
    var zCounter: int

    /** The invariant every operation keeps: ids are unique, every window in
        the list is open, and no window's z-order exceeds the counter, which
        never drops below its start value. */
    ghost predicate Valid()
      reads this
    {
      && UniqueIds(windows)
      && AllOpen(windows)
      && InitialZIndex <= zCounter
      && forall i :: 0 <= i < |windows| ==> windows[i].zIndex <= zCounter
    }

    constructor ()
      ensures Valid()
      ensures windows == [] && active == None && zCounter == InitialZIndex
    {
      windows := [];
      active := None;
      zCounter := InitialZIndex;
    }

    /** `openWindow`: focus the window if its id is present, else append a new one. */
    method Open(id: string, title: string, icon: string)
      requires Valid()
      modifies this
      ensures Valid()
      ensures zCounter == old(zCounter) + 1 && active == Some(id)
      ensures old(HasId(windows, id)) ==> windows == Raise(old(windows), id, zCounter)
      ensures old(HasId(windows, id)) ==> |windows| == |old(windows)| && forall i :: 0 <= i < |windows| ==>
        windows[i] == if old(windows)[i].id == id then old(windows)[i].(isMinimized := false, zIndex := zCounter) else old(windows)[i]
      ensures !old(HasId(windows, id)) ==>
        windows == old(windows) + [NewWindow(id, title, icon, zCounter, StaggeredPosition(|Visible(old(windows))|))]
      ensures HasId(windows, id)
      ensures forall i :: 0 <= i < |windows| ==>
        (windows[i].id == id ==> windows[i].zIndex == zCounter && !windows[i].isMinimized)
        && (windows[i].id != id ==> windows[i].zIndex < zCounter)
    {
      if IndexOf(windows, id) != -1 {
        zCounter := zCounter + 1;
        active := Some(id);
        RaiseKeepsIds(windows, id, zCounter);
        windows := Raise(windows, id, zCounter);
      } else {
        var position := StaggeredPosition(|Visible(windows)|);
        zCounter := zCounter + 1;
        active := Some(id);
        windows := windows + [NewWindow(id, title, icon, zCounter, position)];
        assert windows[|windows| - 1].id == id;
      }
    }

    /** `closeWindow`, for a handler that read `captured` and `capturedActive`
        when it was created: the removal works on the current list, but the new
        active id is computed from the captured values. */
    method CloseFrom(id: string, captured: seq<Window>, capturedActive: Option<string>)
      requires Valid()
      modifies this
      ensures Valid()
      ensures windows == Without(old(windows), id)
      ensures active == if capturedActive == Some(id) then ActiveAfterClose(captured, id) else old(active)
      ensures zCounter == old(zCounter)
    {
      WithoutKeepsValid(windows, id, zCounter);
      windows := Without(windows, id);
      if capturedActive == Some(id) {
        active := ActiveAfterClose(captured, id);
      }
    }

    /** `closeWindow` called from a handler of the current render. */
    method Close(id: string)
      requires Valid()
      modifies this
      ensures Valid()
      ensures windows == Without(old(windows), id)
      ensures active == if old(active) == Some(id) then ActiveAfterClose(old(windows), id) else old(active)
      ensures zCounter == old(zCounter)
    {
      CloseFrom(id, windows, active);
    }

    /** `minimizeWindow`. */
    method Minimize(id: string)
      requires Valid()
      modifies this
      ensures Valid()
      ensures |windows| == |old(windows)|
      ensures forall i :: 0 <= i < |windows| ==>
        windows[i] == if old(windows)[i].id == id then old(windows)[i].(isMinimized := true) else old(windows)[i]
      ensures active == if old(active) == Some(id) then ActiveAfterMinimize(old(windows), id) else old(active)
      ensures zCounter == old(zCounter)
    {
      var previous := windows;
      windows := SetMinimized(windows, id);
      if active == Some(id) {
        active := ActiveAfterMinimize(previous, id);
      }
    }

    /** `maximizeWindow`: toggles the flag; the active id and counter stay. */
    method Maximize(id: string)
      requires Valid()
      modifies this
      ensures Valid()
      ensures windows == ToggleMaximized(old(windows), id)
      ensures |windows| == |old(windows)|
      ensures forall i :: 0 <= i < |windows| ==>
        windows[i] == if old(windows)[i].id == id then old(windows)[i].(isMaximized := !old(windows)[i].isMaximized) else old(windows)[i]
      ensures active == old(active) && zCounter == old(zCounter)
    {
      windows := ToggleMaximized(windows, id);
    }

    /** `focusWindow`: the id becomes active even when no window carries it. */
    method Focus(id: string)
      requires Valid()
      modifies this
      ensures Valid()
      ensures zCounter == old(zCounter) + 1 && active == Some(id)
      ensures windows == Raise(old(windows), id, zCounter)
      ensures |windows| == |old(windows)| && forall i :: 0 <= i < |windows| ==>
        windows[i] == if old(windows)[i].id == id then old(windows)[i].(isMinimized := false, zIndex := zCounter) else old(windows)[i]
      ensures forall i :: 0 <= i < |windows| ==>
        (windows[i].id == id ==> windows[i].zIndex == zCounter && !windows[i].isMinimized)
        && (windows[i].id != id ==> windows[i].zIndex < zCounter)
    {
      zCounter := zCounter + 1;
      active := Some(id);
      RaiseKeepsIds(windows, id, zCounter);
      windows := Raise(windows, id, zCounter);
    }

    /** `updateWindowPosition`. */
    method UpdatePosition(id: string, position: Position)
      requires Valid()
      modifies this
      ensures Valid()
      ensures |windows| == |old(windows)|
      ensures forall i :: 0 <= i < |windows| ==>
        windows[i] == if old(windows)[i].id == id then old(windows)[i].(position := position) else old(windows)[i]
      ensures active == old(active) && zCounter == old(zCounter)
    {
      windows := SetPosition(windows, id, position);
    }

    /** `updateWindowSize`. */
    method UpdateSize(id: string, size: Size)
      requires Valid()
      modifies this
      ensures Valid()
      ensures |windows| == |old(windows)|
      ensures forall i :: 0 <= i < |windows| ==>
        windows[i] == if old(windows)[i].id == id then old(windows)[i].(size := size) else old(windows)[i]
      ensures active == old(active) && zCounter == old(zCounter)
    {
      windows := SetSize(windows, id, size);
    }

    /** `getWindowProps`: null exactly when no window has the id; otherwise
        the fields of the first window with that id. */
    function GetWindowProps(id: string): (r: Option<WindowProps>)
      reads this
      ensures r.None? <==> !HasId(windows, id)
      ensures r.Some? ==> exists i :: 0 <= i < |windows| && windows[i].id == id && r.value == Props(windows[i])
    {
      match Find(windows, id)
      case None => None
      case Some(w) => Some(Props(w))
    }
  }

  // ---------------------------------------------------------------------------
  // Properties of the list transitions

  /** The raise map changes z-order and the minimized flag of the target only. */
  lemma RaiseKeepsIds(ws: seq<Window>, id: string, z: int)
    ensures |Raise(ws, id, z)| == |ws|
    ensures forall i :: 0 <= i < |ws| ==>
      Raise(ws, id, z)[i].id == ws[i].id && Raise(ws, id, z)[i].isOpen == ws[i].isOpen
  {
  }

  lemma {:induction false} FilterKeepsUniqueIds(p: Window -> bool, ws: seq<Window>)
    requires UniqueIds(ws)
    ensures UniqueIds(Filter(p, ws))
    decreases |ws|
  {
    if ws != [] {
      FilterKeepsUniqueIds(p, ws[1..]);
      var rest := Filter(p, ws[1..]);
      forall k | 0 <= k < |rest| ensures rest[k].id != ws[0].id {
        var j :| 0 <= j < |ws[1..]| && ws[1..][j] == rest[k];
        assert ws[j + 1] == rest[k];
      }
    }
  }

  lemma WithoutKeepsValid(ws: seq<Window>, id: string, z: int)
    requires UniqueIds(ws) && AllOpen(ws) && forall i :: 0 <= i < |ws| ==> ws[i].zIndex <= z
    ensures UniqueIds(Without(ws, id)) && AllOpen(Without(ws, id))
    ensures forall i :: 0 <= i < |Without(ws, id)| ==> Without(ws, id)[i].zIndex <= z
  {
    FilterKeepsUniqueIds((w: Window) => w.id != id, ws);
  }

  /** Maximizing twice restores the list. */
  lemma ToggleMaximizedTwice(ws: seq<Window>, id: string)
    ensures ToggleMaximized(ToggleMaximized(ws, id), id) == ws
  {
  }

  /** Closing removes every window with the id and keeps the others in order. */
  lemma WithoutSpec(ws: seq<Window>, id: string)
    ensures !HasId(Without(ws, id), id)
    ensures IsSubsequence(Without(ws, id), ws)
    ensures forall w :: w in ws && w.id != id ==> w in Without(ws, id)
  {
    FilterIsSubsequence((w: Window) => w.id != id, ws);
  }
}
