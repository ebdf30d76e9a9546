# Portfolio OS: the desktop's state machines in Dafny

The portfolio presents itself as a small desktop operating system in the
browser. This project models the logic inside it that is not drawing, and
proves properties of that logic:

- **Window manager.** It holds a list of window records, an optional active
  window id and a z-order counter starting at 100. The operations are open,
  close, minimize, maximize, focus, move and resize.
- **Shell wiring.** Alt+Tab switching wraps around the open windows. The
  close, minimize and maximize shortcuts act on the active window. A desktop
  icon click opens its window. The context menu has "Close All". The mobile
  view lists the visible windows.
- **Window frame.** A window is never resized below 300 by 200. Dragging and
  resizing are refused while it is maximized. A drag adds its offset to the
  position. The size is reported when the mouse is released.
- **Keyboard.** A shortcut dispatcher and the Tab wrap rule of a focus trap.
- **Desktop.** Icons snap to an 80-pixel grid. They start in a two-column
  layout. The desktop keeps a map of icon positions and at most one icon is
  selected.
- **Theme.** The theme is a record. Its mode cycles light, dark, system. It
  has a high-contrast flag and merges partial updates. The hook derives the
  dark flag from the mode, puts classes on the document root and keeps a
  copy in storage.
- **Search.** The search hook and the search overlay both match titles by
  case-insensitive substring, with caps of 10 and 5. The overlay also has an
  open/closed state and a wrap-around selection cursor.
- **Quiz.** Answering, the delayed step after an answer, the result screen,
  restarting and the percentage shown.
- **Leaderboard.** A stable sort by descending score, the podium and the
  rest, and the icon for each rank.
- **Wallpaper.** Shader wallpapers fall back to a gradient on mobile. The
  base layer and the particle overlay are chosen from the settings.
- **Projects window.** A category filter, the switch between the list and
  the detail view, the tech-stack preview and the link buttons.

**How React is modelled.**
- Component and hook state that handlers change becomes a class with one
  field per state variable (`Manager`, `Frame`, `Icon`, `Grid`, `ThemeHook`,
  `SearchHook`, `Overlay`, `QuizState`, `ProjectsView`). Each handler is a
  method that updates that state in one step.
- Record and list updates are pure functions: map, filter and the theme
  updaters.
- A callback a handler invokes is returned as a value (`reported`,
  `request`, `ranFor`, `completed`). It is not called.
- The 1500 ms quiz timer is an explicit method, `DelayedStep`.
- Outside state becomes a parameter of the method that reacts to it: the
  media query's answer, the stored theme, the root's class list and the
  focused element.
- Coordinates and scores are mathematical integers.

**JavaScript semantics modelled explicitly.**
- `%` truncates toward zero (`Js.Rem`).
- The empty string is falsy. This matters for `if (activeWindowId)` and the
  project buttons.
- `x % 0` is `NaN`, so the overlay's cursor is `At(index) | NaN`.
- A handler reads the state of the render that created it. This matters for
  the captured window list in `closeWindow` and `minimizeWindow`, the size
  captured by the resize handlers, and the score captured by the quiz timer.

Modules follow the source files. `Wrappers`, `Seqs`, `Text`, `Js` and
`Geometry` are shared helpers: `Option`, order-preserving filter, ASCII
lowering, JavaScript `trim`, substring search, truncating remainder, and
position and size records.

## Model

| member | source | states |
|---|---|---|
| WindowManager.IndexOf | App/src/hooks/useWindowManager.ts:27 | the first index carrying the id, or -1 exactly when no window has it |
| WindowManager.Find | App/src/hooks/useWindowManager.ts:27 | none exactly when the id is absent, otherwise the first window with that id |
| WindowManager.StaggeredPosition | App/src/hooks/useWindowManager.ts:40-44 | a new window's position lies within 100 ≤ x ≤ 290 and 60 ≤ y ≤ 180 |
| WindowManager.LastIdOfFilter | App/src/hooks/useWindowManager.ts:69-70 | the last element of a filtered list is the last element of the list passing the test, and is none only when no element passes |
| WindowManager.ActiveAfterClose | App/src/hooks/useWindowManager.ts:68-71 | the new active id after the active window closes: never the closed id; the last other open window of the list; none exactly when there is no other open window |
| WindowManager.ActiveAfterMinimize | App/src/hooks/useWindowManager.ts:80-83 | the same for minimize, over windows that are open and not minimized |
| WindowManager.Manager.constructor | App/src/hooks/useWindowManager.ts:21-23 | empty list, no active id, counter 100, invariant established |
| WindowManager.Manager.Open | App/src/hooks/useWindowManager.ts:25-64 | counter +1 and the id becomes active. A present id keeps length and order, and only that window is restored and given the new z-order. An absent id appends exactly one default 800×600 window at the staggered position. Afterwards the target's z-order is strictly the largest. Unique ids, all-open and z ≤ counter are preserved |
| WindowManager.Manager.CloseFrom | App/src/hooks/useWindowManager.ts:66-72 | removes every window with the id, in order, from the current list. If the captured active id was that id, the new active id is computed from the captured list, otherwise it is unchanged |
| WindowManager.Manager.Close | App/src/hooks/useWindowManager.ts:66-72 | the close from the current render: the list without the id; the active id follows `ActiveAfterClose` of the pre-call list only when the closed window was active |
| WindowManager.Manager.Minimize | App/src/hooks/useWindowManager.ts:74-84 | only the target's `isMinimized` is set; an active target hands over to `ActiveAfterMinimize` of the pre-call list |
| WindowManager.Manager.Maximize | App/src/hooks/useWindowManager.ts:86-92 | only the target's `isMaximized` flips; active id and counter unchanged |
| WindowManager.Manager.Focus | App/src/hooks/useWindowManager.ts:94-104 | counter +1 and the id becomes active, even when no window has it. The target is restored with the strictly largest z-order and every other window is unchanged |
| WindowManager.Manager.UpdatePosition | App/src/hooks/useWindowManager.ts:106-112 | replaces only the position of the windows with that id |
| WindowManager.Manager.UpdateSize | App/src/hooks/useWindowManager.ts:114-120 | replaces only the size of the windows with that id |
| WindowManager.Manager.GetWindowProps | App/src/hooks/useWindowManager.ts:122-135 | null exactly when the id is absent; otherwise the fields of a window with that id |
| WindowManager.RaiseKeepsIds | App/src/hooks/useWindowManager.ts:97-103 | the focus map keeps length, ids and open flags |
| WindowManager.FilterKeepsUniqueIds | App/src/hooks/useWindowManager.ts:67 | filtering a list with unique ids keeps them unique |
| WindowManager.WithoutKeepsValid | App/src/hooks/useWindowManager.ts:67 | removal preserves unique ids, all-open and the z-order bound |
| WindowManager.ToggleMaximizedTwice | App/src/hooks/useWindowManager.ts:86-92 | maximizing twice restores the list |
| WindowManager.WithoutSpec | App/src/hooks/useWindowManager.ts:67 | after removal no window has the id, the rest keep their order, and every other window survives |
| Js.Rem | App/src/App.tsx:181-182 | the truncating remainder: it has the sign of the dividend and its size is below the divisor's |
| Js.RemAgreesOnNatural | App/src/App.tsx:181-182 | on non-negative dividends it agrees with Euclidean `%`, which is why the switch index is never negative |
| App.SwitchIndex | App/src/App.tsx:179-182 | the switch index is always in 0..n−1 and equals (i+1) mod n for next and (i−1+n) mod n for prev |
| App.NextThenPrev | App/src/App.tsx:180-182 | for 0 ≤ i < n, next then prev and prev then next both return to i |
| App.CurrentIndex | App/src/App.tsx:179 | the active window's index among the open windows, or −1 |
| App.SwitchTarget | App/src/App.tsx:175-185 | no target exactly when no window is open; otherwise an open window of the list |
| App.SwitchTargetFromActive | App/src/App.tsx:176-184 | with unique ids and the active window at open index i of n, Next focuses open window (i+1) mod n and Prev open window (i−1+n) mod n |
| App.SwitchTargetWithoutActive | App/src/App.tsx:176-184 | with no active id, or one not among the open windows, `findIndex` gives −1: Next focuses the first open window and Prev the second-to-last (the only one when n = 1) |
| App.SwitchNextThenPrev | App/src/App.tsx:175-185 | with unique ids, switching next, which focuses the target, and then prev returns to the window that was active |
| App.ShortcutTarget | App/src/App.tsx:186-194 | a shortcut acts exactly when the active id is set and non-empty, and then on that id |
| App.OnWindowSwitch | App/src/App.tsx:175-185 | no change when no window is open; otherwise it focuses `SwitchTarget` |
| App.OnWindowClose | App/src/App.tsx:186-188 | nothing without an active id; otherwise it closes exactly the active window |
| App.OnWindowMinimize | App/src/App.tsx:189-191 | nothing without an active id; otherwise it minimizes exactly the active window |
| App.OnWindowMaximize | App/src/App.tsx:192-194 | nothing without an active id; otherwise it toggles exactly the active window |
| App.LookupIcon | App/src/App.tsx:242 | none exactly when no icon entry has the id; otherwise the first entry with it |
| App.HandleIconClick | App/src/App.tsx:241-246 | opens a window only for an id of the `DesktopIcons` table, with that entry's title and icon; otherwise nothing changes |
| App.DesktopIconIdsDistinct | App/src/App.tsx:112-119 | the six ids of the icon table are pairwise distinct |
| App.DesktopIconsLookup | App/src/App.tsx:112-119 | looking up any icon's own id finds that icon's entry |
| App.SettingsResultsOpenNothing | App/src/App.tsx:129-130 | the `theme` and `wallpaper` search results, which also call `handleIconClick` (App/src/App.tsx:354-357), find no entry, so they open no window |
| App.CloseAll | App/src/App.tsx:215-217 | the list ends empty; the active id ends as `ActiveAfterCloseAll` of the captured list and active id |
| App.CloseAllLeavesStaleActive | App/src/App.tsx:215-217 | with another window open besides the active one, "Close All" leaves an active id, and it names a window that was removed |
| App.CloseAllWithFreshState | App/src/App.tsx:215-217 | corrected "Close All": the list ends empty and an active id that named a window ends as none |
| App.MobileWindows | App/src/App.tsx:326 | the open, non-minimized windows, each with as many copies as in the list and none other, as a subsequence of the list |
| App.WelcomeIffNothingVisible | App/src/App.tsx:332-338 | the welcome panel shows exactly when every window is closed or minimized |
| WindowFrame.ClampResize | App/src/components/windows/WindowFrame.tsx:84-88 | each side is at least its minimum (300, 200) and at least start + travel, and equals one of the two |
| WindowFrame.Frame.constructor | App/src/components/windows/WindowFrame.tsx:49-54 | local size and position start at the initial props; not dragging |
| WindowFrame.Frame.SetFlags | App/src/components/windows/WindowFrame.tsx:35-36 | new flag props leave the local state alone |
| WindowFrame.Frame.DragStart | App/src/components/windows/WindowFrame.tsx:59-63 | refused while maximized; otherwise dragging starts and focus is asked for, exactly when not maximized |
| WindowFrame.Frame.DragEnd | App/src/components/windows/WindowFrame.tsx:65-72 | position becomes old position + offset, and exactly that position is reported |
| WindowFrame.Frame.ResizeStart | App/src/components/windows/WindowFrame.tsx:74-83 | refused while maximized; otherwise it captures the pointer and the current size |
| WindowFrame.Frame.ResizeMove | App/src/components/windows/WindowFrame.tsx:84-88 | during a session the size becomes `ClampResize` of the captured size and the pointer's travel, so it never drops below 300×200 |
| WindowFrame.Frame.ResizeEnd | App/src/components/windows/WindowFrame.tsx:90-94 | as written: mouse-up reports the size captured at mouse-down and ends the session |
| WindowFrame.Frame.ResizeEndReportingCurrent | App/src/components/windows/WindowFrame.tsx:90-94 | corrected: mouse-up reports the size on screen |
| WindowFrame.StaleResizeReport | App/src/components/windows/WindowFrame.tsx:74-98 | a concrete resize whose report (800×600) differs from the size shown (900×650) |
| WindowFrame.ResizeReportsShownSize | App/src/components/windows/WindowFrame.tsx:74-98 | with the corrected mouse-up every resize reports exactly the clamped size shown |
| KeyboardNavigation.Dispatch | App/src/hooks/useKeyboardNavigation.ts:14-55 | at most one callback per event. One runs only if supplied and matching, for the key its branch tests. Every supplied matching callback runs |
| KeyboardNavigation.AltTab | App/src/hooks/useKeyboardNavigation.ts:16-19 | Alt+Tab switches next, Alt+Shift+Tab prev, with the default prevented |
| KeyboardNavigation.AltF4 | App/src/hooks/useKeyboardNavigation.ts:22-25 | Alt+F4 closes, with the default prevented |
| KeyboardNavigation.CommandShortcuts | App/src/hooks/useKeyboardNavigation.ts:28-49 | Ctrl/Meta with `m`, `ArrowUp`, space or `t` map to minimize, maximize, search and theme; `M` does nothing |
| KeyboardNavigation.EscapeKey | App/src/hooks/useKeyboardNavigation.ts:52-54 | Escape fires whatever the modifiers and does not prevent the default |
| KeyboardNavigation.MissingCallbackSkipped | App/src/hooks/useKeyboardNavigation.ts:22-25 | a missing callback is skipped but the default is still prevented |
| KeyboardNavigation.TrapTab | App/src/hooks/useKeyboardNavigation.ts:74-84 | Shift+Tab on the first element goes to the last, Tab on the last goes to the first; every other press is left alone |
| DesktopIcon.Snap | App/src/components/desktop/DesktopIcon.tsx:40-42 | a multiple of 80 within (v−40, v+40] |
| DesktopIcon.SnapIsNearest | App/src/components/desktop/DesktopIcon.tsx:41 | it is the only multiple of 80 in that window, so it is the nearest line, and halves go up |
| DesktopIcon.SnapHalves | App/src/components/desktop/DesktopIcon.tsx:41 | 40 snaps to 80 and −40 to 0, as `Math.round` does |
| DesktopIcon.SnapIdempotent | App/src/components/desktop/DesktopIcon.tsx:41 | snapping twice is snapping once |
| DesktopIcon.SnapMonotone | App/src/components/desktop/DesktopIcon.tsx:41 | snapping preserves order |
| DesktopIcon.Icon.constructor | App/src/components/desktop/DesktopIcon.tsx:34-35 | the motion values start at the position prop |
| DesktopIcon.Icon.DragStart | App/src/components/desktop/DesktopIcon.tsx:83 | dragging starts and the position stays |
| DesktopIcon.Icon.DragEnd | App/src/components/desktop/DesktopIcon.tsx:44-51 | both coordinates become snap(old + offset), and exactly that pair is reported |
| DesktopIcon.ActivatingKeys | App/src/components/desktop/DesktopIcon.tsx:106-111 | Enter and space open the icon; `Space`, `Return`, `enter` and the empty key do not |
| DesktopGrid.Cell | App/src/components/desktop/DesktopGrid.tsx:26-33 | icon i starts in column x ∈ {20, 120} on a row y = 60 + 100k |
| DesktopGrid.CellInjective | App/src/components/desktop/DesktopGrid.tsx:27-32 | distinct indices start in distinct cells |
| DesktopGrid.InitialLayout | App/src/components/desktop/DesktopGrid.tsx:24-35 | the layout loop maps exactly the icon ids, each to the cell of its last index |
| DesktopGrid.PositionOf | App/src/components/desktop/DesktopGrid.tsx:65 | the stored position, or (0,0) when there is none |
| DesktopGrid.Grid.constructor | App/src/components/desktop/DesktopGrid.tsx:24-37 | the initial layout, nothing selected |
| DesktopGrid.Grid.PositionChange | App/src/components/desktop/DesktopGrid.tsx:39-41 | only that id's entry changes |
| DesktopGrid.Grid.IconClick | App/src/components/desktop/DesktopGrid.tsx:43-46 | the icon becomes the only selected one, then its handler runs |
| DesktopGrid.Grid.DesktopClick | App/src/components/desktop/DesktopGrid.tsx:48-52 | a click on the desktop itself clears the selection; a bubbled one leaves it |
| DesktopGrid.SingleSelection | App/src/components/desktop/DesktopGrid.tsx:70 | at most one icon is drawn selected |
| Theme.Merge | App/src/hooks/useTheme.ts:64-66 | each supplied field overrides, each absent one is kept |
| Theme.InitialTheme | App/src/hooks/useTheme.ts:14-18 | the defaults (system, no high contrast, `water`, `none`) when nothing is stored, otherwise `Merge(DefaultTheme, stored)` by definition |
| Theme.InitialThemeFromStoredMode | App/src/hooks/useTheme.ts:14-18 | a stored record holding only a mode gives that mode with the other three defaults |
| Theme.MergeLaws | App/src/hooks/useTheme.ts:65 | merging nothing is the identity; merging twice is merging once |
| Theme.StoredRoundTrip | App/src/hooks/useTheme.ts:17 | the stored copy of a theme restores exactly that theme |
| Theme.NextMode | App/src/hooks/useTheme.ts:71 | the next mode always differs |
| Theme.ModeToggled | App/src/hooks/useTheme.ts:68-73 | only the mode changes, to the next in the cycle |
| Theme.ModeToggledCycle | App/src/hooks/useTheme.ts:68-73 | three toggles restore the theme, two do not |
| Theme.HighContrastToggled | App/src/hooks/useTheme.ts:75-77 | only the flag flips |
| Theme.HighContrastToggledInvolution | App/src/hooks/useTheme.ts:75-77 | toggling twice restores the theme |
| Theme.WithWallpaper | App/src/hooks/useTheme.ts:79-81 | only the wallpaper changes |
| Theme.WithParticleEffect | App/src/hooks/useTheme.ts:83-85 | only the particle effect changes |
| Theme.SettersAreMerges | App/src/hooks/useTheme.ts:64-85 | every single-field updater is the partial merge of just that field |
| Theme.IsDark | App/src/hooks/useTheme.ts:23-28 | dark for `dark`, light for `light`, the media query for `system` |
| Theme.ApplyClasses | App/src/hooks/useTheme.ts:43-58 | `dark` present iff dark, `high-contrast` present iff the flag, other classes untouched |
| Theme.ThemeHook.constructor | App/src/hooks/useTheme.ts:14-30 | the initial theme from storage, with the effects' invariant established |
| Theme.ThemeHook.Commit | App/src/hooks/useTheme.ts:43-62 | after any theme change the classes and storage agree with the theme and the dark flag |
| Theme.ThemeHook.SetTheme | App/src/hooks/useTheme.ts:64-66 | the theme becomes the merge, with the invariant kept |
| Theme.ThemeHook.ToggleMode | App/src/hooks/useTheme.ts:68-73 | the theme becomes `ModeToggled`, with the invariant kept |
| Theme.ThemeHook.ToggleHighContrast | App/src/hooks/useTheme.ts:75-77 | the theme becomes `HighContrastToggled`, with the invariant kept |
| Theme.ThemeHook.SetWallpaper | App/src/hooks/useTheme.ts:79-81 | the theme becomes `WithWallpaper`, with the invariant kept |
| Theme.ThemeHook.SetParticleEffect | App/src/hooks/useTheme.ts:83-85 | the theme becomes `WithParticleEffect`, with the invariant kept |
| Theme.ThemeHook.MediaChange | App/src/hooks/useTheme.ts:32-41 | the dark flag follows the media query only in `system` mode |
| Text.LowerChar | App/src/hooks/useSearch.ts:16 | upper-case ASCII letters map to lower case, everything else is kept, and no upper-case letter is left |
| Text.Lower | App/src/hooks/useSearch.ts:16 | same length, lowered character by character |
| Text.LowerIdempotent | App/src/hooks/useSearch.ts:16 | lowering twice is lowering once |
| Text.Includes | App/src/hooks/useSearch.ts:18 | true exactly when the needle occurs at some position |
| Text.IncludesEmpty | App/src/hooks/useSearch.ts:14 | every string includes the empty string |
| Text.MatchIgnoresQueryCase | App/src/hooks/useSearch.ts:16-18 | matching ignores the case of the query |
| Search.Matching | App/src/hooks/useSearch.ts:17-19 | the items whose lowered title includes the lowered query, each with as many copies as in the list and no other item, in order |
| Search.SearchResults | App/src/hooks/useSearch.ts:13-20 | nothing for a blank query; otherwise the first min(10, m) of the m matches |
| Search.SearchResultsSound | App/src/hooks/useSearch.ts:13-20 | every result matches, results keep item order, at most 10, and none is dropped when there are ≤ 10 matches |
| Search.SearchHook.constructor | App/src/hooks/useSearch.ts:10-11 | empty query, closed |
| Search.SearchHook.SetQuery | App/src/hooks/useSearch.ts:10 | only the query changes |
| Search.SearchHook.Open | App/src/hooks/useSearch.ts:22-25 | open with an empty query and no results |
| Search.SearchHook.Close | App/src/hooks/useSearch.ts:27-30 | closed with an empty query |
| Search.SearchHook.Toggle | App/src/hooks/useSearch.ts:32-35 | flips open; clears the query only when it was open |
| Search.SearchHook.Execute | App/src/hooks/useSearch.ts:37-40 | the result's action runs, then search is closed with an empty query |
| SearchBar.OverlayResults | App/src/components/search/SearchBar.tsx:25-31 | a blank query gives the first min(5, n) items; otherwise the hook's own result list; never more than 10 |
| SearchBar.StepCursor | App/src/components/search/SearchBar.tsx:46-53 | with n > 0, down is (i+1) mod n and up (i−1+n) mod n, in range; with no results or from `NaN` it is `NaN` |
| SearchBar.StepCursorRoundTrip | App/src/components/search/SearchBar.tsx:46-53 | down then up and up then down return to the index |
| SearchBar.NaNStaysNaN | App/src/components/search/SearchBar.tsx:46-53 | no run of arrow keys leaves `NaN` |
| SearchBar.NaNCursorSticks | App/src/components/search/SearchBar.tsx:46-53 | an arrow with no results gives `NaN`, and it stays `NaN` whatever the later result counts |
| SearchBar.StepCursorGuarded | App/src/components/search/SearchBar.tsx:46-53 | corrected step: always a whole number, in range when there are results, unchanged when there are none, and equal to the written step whenever that is defined |
| SearchBar.Overlay.constructor | App/src/components/search/SearchBar.tsx:21-22 | empty query, cursor 0 |
| SearchBar.Overlay.SetOpen | App/src/components/search/SearchBar.tsx:33-39 | becoming open resets query and cursor; any other prop change keeps them |
| SearchBar.Overlay.Edit | App/src/components/search/SearchBar.tsx:110 | typing changes the query and does not reset the cursor |
| SearchBar.Overlay.KeyDown | App/src/components/search/SearchBar.tsx:41-65 | every key is ignored while closed. The arrows step the cursor. Enter selects `results[i]` only when that index exists. Escape requests close. The four keys prevent the default, others do not |
| SearchBar.NaNCursorScenario | App/src/components/search/SearchBar.tsx:41-65 | a concrete run: an arrow over no results makes the cursor `NaN`, and after the item is listed again Enter selects nothing |
| Quiz.CorrectCount | App/src/components/quiz/Quiz.tsx:35-37 | the number of correct answers never exceeds the number of answers |
| Quiz.CorrectCountSnoc | App/src/components/quiz/Quiz.tsx:35-37 | one more answer adds one exactly when it is correct |
| Quiz.QuizState.constructor | App/src/components/quiz/Quiz.tsx:22-27 | the initial state (0, null, 0, false, false) for a non-empty question list |
| Quiz.QuizState.Bounds | App/src/components/quiz/Quiz.tsx:35-44 | score ≤ answers given ≤ questions |
| Quiz.QuizState.Answer | App/src/components/quiz/Quiz.tsx:29-38 | ignored once answered. Otherwise it records the index, sets `answered`, adds one to the score exactly when correct, and schedules the step with the score captured |
| Quiz.QuizState.DelayedStep | App/src/components/quiz/Quiz.tsx:39-48 | before the last question it moves on and clears the choice. On the last it shows the result and reports the total of correct answers, the final one included, out of the number of questions |
| Quiz.QuizState.Restart | App/src/components/quiz/Quiz.tsx:51-57 | back to the initial state with no answers |
| Quiz.Percentage | App/src/components/quiz/Quiz.tsx:60 | the nearest whole percentage, with halves rounding up, in 0..100 |
| Quiz.PercentageBounds | App/src/components/quiz/Quiz.tsx:60 | the rounded quotient lies in 0..100 |
| Quiz.PercentageEnds | App/src/components/quiz/Quiz.tsx:60 | all correct shows 100, none shows 0 |
| Leaderboard.Insert | App/src/components/leaderboard/Leaderboard.tsx:23 | the insertion step adds exactly the one entry |
| Leaderboard.SortByScore | App/src/components/leaderboard/Leaderboard.tsx:23 | the sorted list is a permutation of the entries |
| Leaderboard.InsertDescending | App/src/components/leaderboard/Leaderboard.tsx:23 | insertion keeps a list descending |
| Leaderboard.InsertFirst | App/src/components/leaderboard/Leaderboard.tsx:23 | the head after insertion is the new entry or the old head |
| Leaderboard.SortDescending | App/src/components/leaderboard/Leaderboard.tsx:23 | scores never increase along the sorted list |
| Leaderboard.WithScoreCons | App/src/components/leaderboard/Leaderboard.tsx:23 | the entries of one score of a list with a new head |
| Leaderboard.InsertWithScore | App/src/components/leaderboard/Leaderboard.tsx:23 | insertion goes ahead of equal scores and keeps everything else's order |
| Leaderboard.SortStable | App/src/components/leaderboard/Leaderboard.tsx:23 | entries with equal scores keep their input order |
| Leaderboard.SortByScoreCorrect | App/src/components/leaderboard/Leaderboard.tsx:23 | permutation, descending and stable |
| Leaderboard.TopThree | App/src/components/leaderboard/Leaderboard.tsx:24 | the first min(3, n) sorted entries |
| Leaderboard.Rest | App/src/components/leaderboard/Leaderboard.tsx:25 | the remaining n − 3 entries, or none |
| Leaderboard.SplitJoins | App/src/components/leaderboard/Leaderboard.tsx:24-25 | podium followed by rest is the sorted list |
| Leaderboard.RankIconOf | App/src/components/leaderboard/Leaderboard.tsx:27-37 | ranks 0, 1, 2 get trophy, medal, award (each iff), rank r ≥ 3 gets #(r+1) |
| Leaderboard.RowsRankBySortedPosition | App/src/components/leaderboard/Leaderboard.tsx:59-96 | every sorted entry is drawn once, in order, with the icon of its own position (rest rows use index + 3) |
| Leaderboard.EmptyState | App/src/components/leaderboard/Leaderboard.tsx:110-115 | the empty-state message shows exactly when there are no entries, and then no row is drawn |
| Wallpaper.EffectiveType | App/src/components/wallpaper/WallpaperManager.tsx:24-27 | a shader on mobile becomes a gradient; everything else passes through; never a shader on mobile |
| Wallpaper.EffectivePreset | App/src/components/wallpaper/WallpaperManager.tsx:29-32 | a shader on mobile gets `subtle`; everything else passes through |
| Wallpaper.BaseLayers | App/src/components/wallpaper/WallpaperManager.tsx:37-54 | exactly one base layer is drawn |
| Wallpaper.Overlay | App/src/components/wallpaper/WallpaperManager.tsx:57-59 | the particle overlay is drawn iff the effect is not `none` |
| Wallpaper.BaseLayerChoice | App/src/components/wallpaper/WallpaperManager.tsx:37-54 | the base layer is the renderer of the effective type with the effective preset; solid is `#0a0a0a` when dark, `#ffffff` otherwise |
| Wallpaper.NoShaderOnMobile | App/src/components/wallpaper/WallpaperManager.tsx:24-59 | no shader layer is drawn on mobile |
| Wallpaper.LayerCount | App/src/components/wallpaper/WallpaperManager.tsx:20-59 | one layer with the default effect, two with any other |
| Projects.FilterProjects | App/src/content/ProjectsContent.tsx:65-67 | `All` returns the list unchanged; any other filter the projects of that category, each with as many copies as in the list and no other project, in order |
| Projects.CategoryFiltersPartition | App/src/content/ProjectsContent.tsx:58-67 | when every project has one of the buttons' categories Climate, Tech or Writing, the three category lists together are exactly as long as the whole list |
| Projects.Preview | App/src/content/ProjectsContent.tsx:185 | at most the first three tech-stack entries, in order |
| Projects.Buttons | App/src/content/ProjectsContent.tsx:123-140 | each of GitHub, Live Demo, PDF appears iff its field is present and non-empty |
| Projects.EmptyLinkDrawsNoButton | App/src/content/ProjectsContent.tsx:123-128 | an empty link string draws no button |
| Projects.ProjectsView.constructor | App/src/content/ProjectsContent.tsx:62-63 | nothing selected, filter `All` |
| Projects.ProjectsView.SetFilter | App/src/content/ProjectsContent.tsx:156 | only the filter changes |
| Projects.ProjectsView.Select | App/src/content/ProjectsContent.tsx:175 | the detail view of that project is shown, filter kept |
| Projects.ProjectsView.Back | App/src/content/ProjectsContent.tsx:79 | back to the list, with the same filter and the same listed projects |

## Left out

- Rendering and animation are not modelled. This covers JSX layout, CSS classes, framer-motion springs, `getAnimationProps`, hover animations, `getRankStyle`, `getIcon` and `getWindowContent`. None of it decides state.
- The taskbar, mobile menu, boot sequence, clock, particle engines and shader and gradient renderers are not part of this model. They are timers, floating-point motion, randomness and canvas drawing.
- `localStorage`, `JSON.parse` and `typeof window` are outside the model. The stored theme arrives as an optional partial record. Malformed JSON and fields of the wrong type are not modelled.
- `matchMedia`, `window.innerWidth < 768` and DOM focus are outside the model. The media query's answer, the mobile flag and the focused element's index are parameters.
- Listener registration and removal are not modelled. This covers `addEventListener` in the keyboard, search and theme hooks and the resize listeners. Each listener is a method that runs when its event arrives.
- The context menu's other entries are not modelled: Open, the theme entry, Light and Dark (which do nothing), and the particle entries. Neither is its open/closed state, nor the part of `onEscape` that closes it. The theme and particle entries call `toggleMode` and `setParticleEffect`, which are modelled in `Theme`.
- React batching and render scheduling are not modelled. Each handler is one atomic step on the state it reads. Stale reads are modelled only where the source reads a captured value: `windows` and `activeWindowId` in close and minimize, `size` in the resize handlers, and `score` in the quiz timer.
- The frame's `onMouseDown={onFocus}` (App/src/components/windows/WindowFrame.tsx:144) has no state of its own and is not a separate member: it is the window manager's `Manager.Focus` of the frame's id.
- WindowFrame.Frame.ResizeStart: models one resize session at a time. A second mouse-down before a mouse-up adds a second set of listeners in the source; this model replaces the session instead.
- DesktopIcon.Icon.constructor: the motion values are initialised from the position prop only. Later prop changes do not move them, so a changed prop is not modelled.
- DesktopIcon.Snap: snaps integers only. The fractional drag offsets and coordinates of the source are not modelled.
- WindowFrame.Frame.DragEnd: integer offsets only. Fractional offsets are not modelled.
- Quiz.Percentage: rounds the exact rational score/total. `Math.round` on the floating-point product could differ from it only by rounding error, which is not modelled.
- Text.Lower: lowers ASCII letters only. Full Unicode `toLowerCase`, where some characters change length, is not modelled.
- Quiz.QuizState.constructor: requires a non-empty question list, because the question screen reads `questions[currentQuestion]`, which is `undefined` for an empty list.
- The leaderboard's highlight (`entry.id === currentUserId`) is the predicate `Leaderboard.Highlighted`, with no further property. The avatar fallback `entry.avatar || '👤'` is presentation and is not modelled.
- JavaScript numbers are doubles. Counters, coordinates and scores here are unbounded integers, so overflow past 2^53 is not modelled.

## Findings

| source | as written | input that shows it | evidently intended | confidence | as-written member | corrected member |
|---|---|---|---|---|---|---|
| App/src/App.tsx:215-217 | every `closeWindow` of "Close All" computes the new active id from the list captured when the menu was built | windows `a`, `b` open, `b` active: closing `a` leaves `b` active, closing `b` sets the active id to `a`, which is already gone | after "Close All" nothing is active | not executed | App.CloseAll, App.CloseAllLeavesStaleActive | App.CloseAllWithFreshState |
| App/src/components/windows/WindowFrame.tsx:90-91 | the mouse-up handler passes the `size` captured at mouse-down to `onSizeChange` | an 800×600 window dragged 100 right and 50 down shows 900×650 but reports 800×600 | report the size the last mouse move set | not executed | WindowFrame.Frame.ResizeEnd, WindowFrame.StaleResizeReport | WindowFrame.Frame.ResizeEndReportingCurrent, WindowFrame.ResizeReportsShownSize |
| App/src/components/search/SearchBar.tsx:48-52 | the arrow keys compute `% results.length` even when there are no results | one item titled "A", typed query "ab", ArrowDown: the index becomes `NaN`. After the query is cleared, ArrowDown keeps `NaN` and Enter selects nothing until the overlay is reopened | with no results the index stays where it is | not executed | SearchBar.StepCursor, SearchBar.NaNCursorSticks, SearchBar.NaNCursorScenario | SearchBar.StepCursorGuarded |
