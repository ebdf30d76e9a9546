/** The window-level wiring of the desktop shell: keyboard window switching,
    shortcuts that act on the active window, desktop icon lookup, the
    context menu's "Close All" and the mobile list of windows. */
module App {
  import opened Wrappers
  import opened Seqs
  import Js
  import opened WindowManager
  import opened KeyboardNavigation

  /** `windows.filter(w => w.isOpen)`. */
  function OpenWindows(ws: seq<Window>): seq<Window> {
    Filter((w: Window) => w.isOpen, ws)
  }

  /** The index the switch handler moves to among `n` open windows, from the
      active window's index `current` (-1 when it is not among them). */
  function SwitchIndex(current: int, n: int, direction: Direction): (r: int)
    requires n > 0 && -1 <= current < n
    ensures 0 <= r < n
    ensures direction == Next ==> r == (current + 1) % n
    ensures direction == Prev ==> r == (current - 1 + n) % n
  {
    if direction == Next then Js.Rem(current + 1, n) else Js.Rem(current - 1 + n, n)
  }

  /** Switching forward and then back returns to the same index. */
  lemma NextThenPrev(i: int, n: int)
    requires 0 <= i < n
    ensures SwitchIndex(SwitchIndex(i, n, Next), n, Prev) == i
    ensures SwitchIndex(SwitchIndex(i, n, Prev), n, Next) == i
  {
    var j := SwitchIndex(i, n, Next);
    Js.ModOnce(i + 1, n);
    Js.ModOnce(j - 1 + n, n);
    var k := SwitchIndex(i, n, Prev);
    Js.ModOnce(i - 1 + n, n);
    Js.ModOnce(k + 1, n);
  }

  function CurrentIndex(open: seq<Window>, active: Option<string>): (r: int)
    ensures -1 <= r < |open|
  {
    match active
    case None => -1
    case Some(a) => IndexOf(open, a)
  }

  /** The window `onWindowSwitch` focuses: none when no window is open,
      otherwise the open window next to (or before) the active one, wrapping
      around the list. */
  function SwitchTarget(ws: seq<Window>, active: Option<string>, direction: Direction): (r: Option<string>)
    ensures r.None? <==> forall i :: 0 <= i < |ws| ==> !ws[i].isOpen
    ensures r.Some? ==> exists i :: 0 <= i < |ws| && ws[i].id == r.value && ws[i].isOpen
  {
    var open := OpenWindows(ws);
    if |open| == 0 then
      assert forall i :: 0 <= i < |ws| ==> !ws[i].isOpen by {
        forall i | 0 <= i < |ws| ensures !ws[i].isOpen {
          assert ws[i] in ws;
        }
      }
      None
    else
      var k := SwitchIndex(CurrentIndex(open, active), |open|, direction);
      assert open[k] in ws && open[k].isOpen;
      Some(open[k].id)
  }

  /** With the active window at index `i` of the open windows, Next focuses
      the open window after it and Prev the one before it, both wrapping
      around. */
  lemma SwitchTargetFromActive(ws: seq<Window>, a: string, i: int)
    requires UniqueIds(ws)
    requires 0 <= i < |OpenWindows(ws)| && OpenWindows(ws)[i].id == a
    ensures var open := OpenWindows(ws);
      && SwitchTarget(ws, Some(a), Next) == Some(open[(i + 1) % |open|].id)
      && SwitchTarget(ws, Some(a), Prev) == Some(open[(i - 1 + |open|) % |open|].id)
  {
    FilterKeepsUniqueIds((w: Window) => w.isOpen, ws);
    IndexOfUnique(OpenWindows(ws), i);
  }

  /** With no active open window the index found is -1: Next focuses the
      first open window, and Prev the second-to-last one (the only one when
      a single window is open). */
  lemma SwitchTargetWithoutActive(ws: seq<Window>, active: Option<string>)
    requires OpenWindows(ws) != []
    requires active.None? || !HasId(OpenWindows(ws), active.value)
    ensures var open := OpenWindows(ws);
      && SwitchTarget(ws, active, Next) == Some(open[0].id)
      && SwitchTarget(ws, active, Prev) == Some(open[if |open| == 1 then 0 else |open| - 2].id)
  {
    var open := OpenWindows(ws);
    var n := |open|;
    assert CurrentIndex(open, active) == -1;
    assert SwitchIndex(-1, n, Next) == 0;
    if n >= 2 {
      Js.ModOnce(n - 2, n);
    }
    assert SwitchIndex(-1, n, Prev) == if n == 1 then 0 else n - 2;
  }

  /** Two window lists that agree on every window's id and open flag. */
  predicate SameIdsAndFlags(a: seq<Window>, b: seq<Window>) {
    |a| == |b| && forall i :: 0 <= i < |a| ==> a[i].id == b[i].id && a[i].isOpen == b[i].isOpen
  }

  lemma {:induction false} OpenWindowsAgree(a: seq<Window>, b: seq<Window>)
    requires SameIdsAndFlags(a, b)
    ensures |OpenWindows(a)| == |OpenWindows(b)|
    ensures forall k :: 0 <= k < |OpenWindows(a)| ==> OpenWindows(a)[k].id == OpenWindows(b)[k].id
    decreases |a|
  {
    if a != [] {
      assert SameIdsAndFlags(a[1..], b[1..]) by {
        forall i | 0 <= i < |a[1..]| ensures a[1..][i].id == b[1..][i].id && a[1..][i].isOpen == b[1..][i].isOpen {
          assert a[1..][i] == a[i + 1] && b[1..][i] == b[i + 1];
        }
      }
      OpenWindowsAgree(a[1..], b[1..]);
      var ra, rb := OpenWindows(a[1..]), OpenWindows(b[1..]);
      assert OpenWindows(a) == (if a[0].isOpen then [a[0]] else []) + ra;
      assert OpenWindows(b) == (if b[0].isOpen then [b[0]] else []) + rb;
    }
  }

  lemma IndexOfAgrees(a: seq<Window>, b: seq<Window>, id: string)
    requires |a| == |b| && forall k :: 0 <= k < |a| ==> a[k].id == b[k].id
    ensures IndexOf(a, id) == IndexOf(b, id)
  {
    var ra, rb := IndexOf(a, id), IndexOf(b, id);
    if ra >= 0 { assert b[ra].id == id; }
    if rb >= 0 { assert a[rb].id == id; }
  }

  lemma IndexOfUnique(ws: seq<Window>, k: int)
    requires UniqueIds(ws) && 0 <= k < |ws|
    ensures IndexOf(ws, ws[k].id) == k
  {
    assert HasId(ws, ws[k].id);
  }

  /** With unique ids, switching to the next window and then back returns to
      the window that was active, even though the focus in between raised the
      target's z-order. */
  lemma SwitchNextThenPrev(ws: seq<Window>, a: string, z: int)
    requires UniqueIds(ws)
    requires exists i :: 0 <= i < |ws| && ws[i].id == a && ws[i].isOpen
    ensures SwitchTarget(ws, Some(a), Next).Some?
    ensures SwitchTarget(Raise(ws, SwitchTarget(ws, Some(a), Next).value, z),
                         SwitchTarget(ws, Some(a), Next), Prev) == Some(a)
  {
    var i0 :| 0 <= i0 < |ws| && ws[i0].id == a && ws[i0].isOpen;
    var open := OpenWindows(ws);
    assert ws[i0] in open;
    FilterKeepsUniqueIds((w: Window) => w.isOpen, ws);
    var n := |open|;
    var i := IndexOf(open, a);
    var j := SwitchIndex(i, n, Next);
    var t := open[j].id;
    assert SwitchTarget(ws, Some(a), Next) == Some(t);
    var raised := Raise(ws, t, z);
    RaiseKeepsIds(ws, t, z);
    OpenWindowsAgree(raised, ws);
    var open' := OpenWindows(raised);
    IndexOfAgrees(open', open, t);
    IndexOfUnique(open, j);
    NextThenPrev(i, n);
    assert SwitchIndex(CurrentIndex(open', Some(t)), n, Prev) == i;
  }

  /** `if (activeWindowId)`: the shortcut handlers act on the active id only
      when it is set and not the empty string, which JavaScript treats as false. */
  function ShortcutTarget(active: Option<string>): (r: Option<string>)
    ensures r.Some? <==> active.Some? && active.value != ""
    ensures r.Some? ==> r == active
  {
    if active.Some? && active.value != "" then active else None
  }

  /** `onWindowSwitch`: focus the target, or do nothing when no window is open. */
  method OnWindowSwitch(m: Manager, direction: Direction)
    requires m.Valid()
    modifies m
    ensures m.Valid()
    ensures (forall i :: 0 <= i < |old(m.windows)| ==> !old(m.windows)[i].isOpen) ==>
      m.windows == old(m.windows) && m.active == old(m.active) && m.zCounter == old(m.zCounter)
    ensures (exists i :: 0 <= i < |old(m.windows)| && old(m.windows)[i].isOpen) ==>
      var t := SwitchTarget(old(m.windows), old(m.active), direction);
      && t.Some? && m.active == t
      && m.zCounter == old(m.zCounter) + 1
      && m.windows == Raise(old(m.windows), t.value, m.zCounter)
  {
    var target := SwitchTarget(m.windows, m.active, direction);
    if target.Some? {
      m.Focus(target.value);
    }
  }

  /** `onWindowClose`. */
  method OnWindowClose(m: Manager)
    requires m.Valid()
    modifies m
    ensures m.Valid()
    ensures ShortcutTarget(old(m.active)).None? ==>
      m.windows == old(m.windows) && m.active == old(m.active) && m.zCounter == old(m.zCounter)
    ensures ShortcutTarget(old(m.active)).Some? ==>
      var id := old(m.active).value;
      m.windows == Without(old(m.windows), id) && m.active == ActiveAfterClose(old(m.windows), id)
      && m.zCounter == old(m.zCounter)
  {
    var target := ShortcutTarget(m.active);
    if target.Some? {
      m.Close(target.value);
    }
  }

  /** `onWindowMinimize`. */
  method OnWindowMinimize(m: Manager)
    requires m.Valid()
    modifies m
    ensures m.Valid()
    ensures ShortcutTarget(old(m.active)).None? ==>
      m.windows == old(m.windows) && m.active == old(m.active) && m.zCounter == old(m.zCounter)
    ensures ShortcutTarget(old(m.active)).Some? ==>
      var id := old(m.active).value;
      m.windows == SetMinimized(old(m.windows), id) && m.active == ActiveAfterMinimize(old(m.windows), id)
      && m.zCounter == old(m.zCounter)
  {
    var target := ShortcutTarget(m.active);
    if target.Some? {
      m.Minimize(target.value);
    }
  }

  /** `onWindowMaximize`. */
  method OnWindowMaximize(m: Manager)
    requires m.Valid()
    modifies m
    ensures m.Valid()
    ensures m.active == old(m.active) && m.zCounter == old(m.zCounter)
    ensures ShortcutTarget(old(m.active)).None? ==> m.windows == old(m.windows)
    ensures ShortcutTarget(old(m.active)).Some? ==>
      m.windows == ToggleMaximized(old(m.windows), old(m.active).value)
  {
    var target := ShortcutTarget(m.active);
    if target.Some? {
      m.Maximize(target.value);
    }
  }

  /** An entry of the desktop's icon table. */
  datatype IconEntry = IconEntry(id: string, title: string, icon: string)

  const DesktopIcons: seq<IconEntry> := [
    IconEntry("about", "About.exe", "👤"),
    IconEntry("projects", "Projects.exe", "📁"),
    IconEntry("resume", "Resume.pdf", "📄"),
    IconEntry("contact", "Contact.app", "✉️"),
    IconEntry("quiz", "Quiz.exe", "❓"),
    IconEntry("leaderboard", "Leaderboard.exe", "🏆")
  ]

  /** `desktopIcons.find(i => i.id === id)`: the first entry with the id. */
  function LookupIcon(icons: seq<IconEntry>, id: string): (r: Option<IconEntry>)
    ensures r.None? <==> forall k :: 0 <= k < |icons| ==> icons[k].id != id
    ensures r.Some? ==> exists k :: 0 <= k < |icons| && icons[k] == r.value && r.value.id == id
                                  && forall j :: 0 <= j < k ==> icons[j].id != id
    decreases |icons|
  {
    if icons == [] then None
    else if icons[0].id == id then Some(icons[0])
    else
      var r := LookupIcon(icons[1..], id);
      assert forall k :: 1 <= k < |icons| ==> icons[k] == icons[1..][k - 1];
      if r.Some? then
        var k :| 0 <= k < |icons[1..]| && icons[1..][k] == r.value && r.value.id == id
                 && forall j :: 0 <= j < k ==> icons[1..][j].id != id;
        assert icons[k + 1] == r.value;
        r
      else
        r
  }

  /** `handleIconClick`: opens a window only for an id in the icon table,
      with that entry's title and icon. */
  method HandleIconClick(m: Manager, id: string)
    requires m.Valid()
    modifies m
    ensures m.Valid()
    ensures LookupIcon(DesktopIcons, id).None? ==>
      m.windows == old(m.windows) && m.active == old(m.active) && m.zCounter == old(m.zCounter)
    ensures LookupIcon(DesktopIcons, id).Some? ==>
      var e := LookupIcon(DesktopIcons, id).value;
      && m.active == Some(id) && m.zCounter == old(m.zCounter) + 1
      && (old(HasId(m.windows, id)) ==> m.windows == Raise(old(m.windows), id, m.zCounter))
      && (!old(HasId(m.windows, id)) ==>
            m.windows == old(m.windows) + [NewWindow(id, e.title, e.icon, m.zCounter, StaggeredPosition(|Visible(old(m.windows))|))])
  {
    var entry := LookupIcon(DesktopIcons, id);
    if entry.Some? {
      m.Open(id, entry.value.title, entry.value.icon);
    }
  }

  /** The six ids of the icon table are distinct: they have six different
      lengths. */
  lemma DesktopIconIdsDistinct()
    ensures forall j, k :: 0 <= j < k < |DesktopIcons| ==> DesktopIcons[j].id != DesktopIcons[k].id
  {
    var lengths := [5, 8, 6, 7, 4, 11];
    assert forall k :: 0 <= k < |DesktopIcons| ==> |DesktopIcons[k].id| == lengths[k];
  }

  /** Each icon of the table opens its own entry. */
  lemma DesktopIconsLookup()
    ensures forall k :: 0 <= k < |DesktopIcons| ==> LookupIcon(DesktopIcons, DesktopIcons[k].id) == Some(DesktopIcons[k])
  {
    DesktopIconIdsDistinct();
    forall k | 0 <= k < |DesktopIcons|
      ensures LookupIcon(DesktopIcons, DesktopIcons[k].id) == Some(DesktopIcons[k])
    {
      var r := LookupIcon(DesktopIcons, DesktopIcons[k].id);
      var k' :| 0 <= k' < |DesktopIcons| && DesktopIcons[k'] == r.value && r.value.id == DesktopIcons[k].id
                && forall j :: 0 <= j < k' ==> DesktopIcons[j].id != DesktopIcons[k].id;
      assert k' == k;
    }
  }

  /** The search results for the two settings also call `handleIconClick`;
      they find no entry, so they open nothing. */
  lemma SettingsResultsOpenNothing()
    ensures LookupIcon(DesktopIcons, "theme").None? && LookupIcon(DesktopIcons, "wallpaper").None?
  {
    assert forall k :: 0 <= k < |DesktopIcons| ==> DesktopIcons[k].id != "theme" && DesktopIcons[k].id != "wallpaper" by {
      assert "theme"[0] != "about"[0];
    }
  }

  /** The active id left by "Close All": every close handler computed it from
      the same captured list and active id, so only the close of the window
      that was active sets it, to the last other open window of that list. */
  function ActiveAfterCloseAll(ws: seq<Window>, active: Option<string>): Option<string> {
    if active.Some? && HasId(OpenWindows(ws), active.value) then ActiveAfterClose(ws, active.value)
    else active
  }

  lemma WithoutFirst(s: seq<Window>)
    requires UniqueIds(s) && s != []
    ensures Without(s, s[0].id) == s[1..]
  {
    FilterKeepsAll((w: Window) => w.id != s[0].id, s[1..]);
  }

  lemma OpenWindowsOfAllOpen(ws: seq<Window>)
    requires AllOpen(ws)
    ensures OpenWindows(ws) == ws
  {
    FilterKeepsAll((w: Window) => w.isOpen, ws);
  }

  /** The context menu's "Close All": `closeWindow` for each open window, each
      call reading the list and active id captured when the menu was built. */
  method CloseAll(m: Manager)
    requires m.Valid()
    modifies m
    ensures m.Valid()
    ensures m.windows == []
    ensures m.active == ActiveAfterCloseAll(old(m.windows), old(m.active))
    ensures m.zCounter == old(m.zCounter)
  {
    var captured := m.windows;
    var capturedActive := m.active;
    // Where the captured active window sits in the captured list, if anywhere,
    // and the id its close sets.
    var at := if capturedActive.Some? then IndexOf(captured, capturedActive.value) else -1;
    var next := if capturedActive.Some? then ActiveAfterClose(captured, capturedActive.value) else None;
    var i := 0;
    while i < |captured|
      invariant 0 <= i <= |captured|
      invariant m.Valid()
      invariant m.windows == captured[i..]
      invariant m.zCounter == old(m.zCounter)
      invariant m.active == if 0 <= at < i then next else capturedActive
    {
      CloseAllStep(captured, capturedActive, at, i);
      m.CloseFrom(captured[i].id, captured, capturedActive);
      i := i + 1;
    }
    CloseAllEnd(captured, capturedActive, at);
  }

  /** After the last close the active id is the one the active window's close
      set, if that window was in the list, and otherwise the captured one. */
  lemma CloseAllEnd(captured: seq<Window>, capturedActive: Option<string>, at: int)
    requires AllOpen(captured)
    requires at == if capturedActive.Some? then IndexOf(captured, capturedActive.value) else -1
    ensures ActiveAfterCloseAll(captured, capturedActive) ==
      if 0 <= at < |captured| then ActiveAfterClose(captured, capturedActive.value) else capturedActive
  {
    // Every window in the list is open, so the open windows are the list.
    OpenWindowsOfAllOpen(captured);
  }

  /** One close of "Close All": it removes the head of what is left, and it is
      the close of the captured active window exactly at that window's index. */
  lemma CloseAllStep(captured: seq<Window>, capturedActive: Option<string>, at: int, i: int)
    requires UniqueIds(captured) && 0 <= i < |captured|
    requires at == if capturedActive.Some? then IndexOf(captured, capturedActive.value) else -1
    ensures Without(captured[i..], captured[i].id) == captured[i + 1..]
    ensures capturedActive == Some(captured[i].id) <==> at == i
  {
    var rest := captured[i..];
    assert UniqueIds(rest) by {
      forall a, b | 0 <= a < b < |rest| ensures rest[a].id != rest[b].id {
        assert rest[a] == captured[i + a] && rest[b] == captured[i + b];
      }
    }
    WithoutFirst(rest);
    assert rest[1..] == captured[i + 1..];
    IndexOfUnique(captured, i);
  }

  /** With another open window left, "Close All" of the active window's list
      leaves an active id although the list is then empty. */
  lemma CloseAllLeavesStaleActive(ws: seq<Window>, a: string)
    requires AllOpen(ws)
    requires exists i :: 0 <= i < |ws| && ws[i].id == a
    requires exists j :: 0 <= j < |ws| && ws[j].id != a
    ensures ActiveAfterCloseAll(ws, Some(a)).Some?
    ensures ActiveAfterCloseAll(ws, Some(a)) != Some(a)
  {
    OpenWindowsOfAllOpen(ws);
  }

  /** "Close All" as evidently intended: each close reads the current list and
      active id, so the active id never names a window that was closed. */
  method CloseAllWithFreshState(m: Manager)
    requires m.Valid()
    modifies m
    ensures m.Valid()
    ensures m.windows == []
    ensures old(m.active).Some? && HasId(old(m.windows), old(m.active).value) ==> m.active == None
    ensures !(old(m.active).Some? && HasId(old(m.windows), old(m.active).value)) ==> m.active == old(m.active)
    ensures m.zCounter == old(m.zCounter)
  {
    var captured, first := m.windows, m.active;
    // Whether the active window is one of those to be closed.
    var listed := first.Some? && HasId(captured, first.value);
    var i := 0;
    while i < |captured|
      invariant 0 <= i <= |captured|
      invariant m.Valid()
      invariant m.windows == captured[i..]
      invariant m.zCounter == old(m.zCounter)
      invariant !listed ==> m.active == first
      invariant listed ==> m.active.None? || HasId(m.windows, m.active.value)
    {
      var rest, before := m.windows, m.active;
      CloseAllStep(captured, None, -1, i);
      m.Close(captured[i].id);
      if listed {
        ActiveStaysListed(rest, before, m.active);
      } else {
        assert first.None? || captured[i].id != first.value;
      }
      i := i + 1;
    }
  }

  /** Closing the head of a list, with the active id read from that same
      list, leaves an active id that is none or names a window still listed. */
  lemma ActiveStaysListed(rest: seq<Window>, active: Option<string>, after: Option<string>)
    requires UniqueIds(rest) && rest != []
    requires active.None? || HasId(rest, active.value)
    requires after == if active == Some(rest[0].id) then ActiveAfterClose(rest, rest[0].id) else active
    ensures after.None? || HasId(rest[1..], after.value)
  {
    if after.Some? {
      var j :| 0 <= j < |rest| && rest[j].id == after.value;
      assert j != 0;
      assert rest[1..][j - 1] == rest[j];
    }
  }

  /** The windows the mobile view lists: those open and not minimized, in
      list order. */
  function MobileWindows(ws: seq<Window>): (r: seq<Window>)
    ensures forall w :: w in r <==> w in ws && w.isOpen && !w.isMinimized
    ensures forall w :: multiset(r)[w] == if w.isOpen && !w.isMinimized then multiset(ws)[w] else 0
    ensures IsSubsequence(r, ws)
  {
    FilterIsSubsequence((w: Window) => w.isOpen && !w.isMinimized, ws);
    FilterMultiplicity((w: Window) => w.isOpen && !w.isMinimized, ws);
    Visible(ws)
  }

  /** The welcome panel appears exactly when no window is listed. */
  predicate ShowsWelcome(ws: seq<Window>) {
    |Visible(ws)| == 0
  }

  lemma WelcomeIffNothingVisible(ws: seq<Window>)
    ensures ShowsWelcome(ws) <==> forall i :: 0 <= i < |ws| ==> !ws[i].isOpen || ws[i].isMinimized
  {
    if !ShowsWelcome(ws) {
      assert Visible(ws)[0] in ws;
    } else {
      forall i | 0 <= i < |ws| ensures !ws[i].isOpen || ws[i].isMinimized {
        assert ws[i] in ws;
      }
    }
  }
}
