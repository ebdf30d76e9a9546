/** The desktop: the icons' starting layout, the map of their positions and the
    single selected icon. */
module DesktopGrid {
  import opened Wrappers
  import opened Geometry

  const GridCols := 2
  const CellWidth := 100
  const CellHeight := 100

  /** The starting cell of the icon at index `i`: two columns 100 pixels
      apart from x = 20, one row per pair from y = 60. */
  function Cell(i: nat): (p: Position)
    ensures p.x == 20 || p.x == 120
    ensures p.y >= 60 && (p.y - 60) % CellHeight == 0
  {
    Position(20 + (i % GridCols) * CellWidth, 60 + (i / GridCols) * CellHeight)
  }

  /** Distinct indices start in distinct cells. */
  lemma CellInjective(i: nat, j: nat)
    requires Cell(i) == Cell(j)
    ensures i == j
  {
    assert i % GridCols == j % GridCols;
    assert i / GridCols == j / GridCols;
  }

  /** The initial layout loop: for each icon in order, its id is mapped to
      the cell of its index. A repeated id ends at the cell of its last index. */
  method InitialLayout(ids: seq<string>) returns (positions: map<string, Position>)
    ensures positions.Keys == set i | 0 <= i < |ids| :: ids[i]
    ensures forall i :: 0 <= i < |ids| && (forall j :: i < j < |ids| ==> ids[j] != ids[i]) ==>
      positions[ids[i]] == Cell(i)
  {
    positions := map[];
    var k := 0;
    while k < |ids|
      invariant 0 <= k <= |ids|
      invariant positions.Keys == set i | 0 <= i < k :: ids[i]
      invariant forall i :: 0 <= i < k && (forall j :: i < j < k ==> ids[j] != ids[i]) ==>
        positions[ids[i]] == Cell(i)
    {
      positions := positions[ids[k] := Cell(k)];
      k := k + 1;
    }
  }

  /** Where an icon is drawn: its stored position, or the origin when none
      is stored. */
  function PositionOf(positions: map<string, Position>, id: string): (p: Position)
    ensures id in positions ==> p == positions[id]
    ensures id !in positions ==> p == Position(0, 0)
  {
    if id in positions then positions[id] else Position(0, 0)
  }

  class Grid {
    var positions: map<string, Position>
    var selected: Option<string>

    constructor (ids: seq<string>)
      ensures positions.Keys == set i | 0 <= i < |ids| :: ids[i]
      ensures forall i :: 0 <= i < |ids| && (forall j :: i < j < |ids| ==> ids[j] != ids[i]) ==>
        positions[ids[i]] == Cell(i)
      ensures selected.None?
    {
      var layout := InitialLayout(ids);
      positions := layout;
      selected := None;
    }

    /** An icon is drawn selected when its id is the selected one. */
    predicate IsSelected(id: string)
      reads this
    {
      selected == Some(id)
    }

    /** `handlePositionChange`: only that id's entry changes. */
    method PositionChange(id: string, pos: Position)
      modifies this
      ensures positions == old(positions)[id := pos]
      ensures PositionOf(positions, id) == pos
      ensures forall other :: other != id ==> PositionOf(positions, other) == old(PositionOf(positions, other))
      ensures selected == old(selected)
    {
      positions := positions[id := pos];
    }

    /** `handleIconClick`: the icon becomes the selected one, then its own
        click handler runs (returned as `ranFor`). */
    method IconClick(id: string) returns (ranFor: string)
      modifies this
      ensures selected == Some(id) && ranFor == id
      ensures forall other :: IsSelected(other) <==> other == id
      ensures positions == old(positions)
    {
      selected := Some(id);
      ranFor := id;
    }

    /** `handleDesktopClick`: a click on the desktop itself clears the
        selection; a click that bubbled up from an icon leaves it. */
    method DesktopClick(targetIsDesktop: bool)
      modifies this
      ensures targetIsDesktop ==> selected.None?
      ensures !targetIsDesktop ==> selected == old(selected)
      ensures positions == old(positions)
    {
      if targetIsDesktop {
        selected := None;
      }
    }
  }

  /** At most one icon is drawn selected at a time. */
  lemma SingleSelection(g: Grid, a: string, b: string)
    requires g.IsSelected(a) && g.IsSelected(b)
    ensures a == b
  {
  }
}
