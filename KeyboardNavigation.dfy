/** The global shortcut dispatcher and the Tab wrap rule of the focus trap.
    Key events are values; which callbacks were supplied is a parameter. */
module KeyboardNavigation {
  import opened Wrappers

  datatype KeyEvent = KeyEvent(alt: bool, shift: bool, ctrl: bool, meta: bool, key: string)

  datatype Direction = Next | Prev

  datatype Action =
    | SwitchWindow(direction: Direction)
    | CloseWindow
    | MinimizeWindow
    | MaximizeWindow
    | OpenSearch
    | ToggleTheme
    | Escape

  /** Which of the optional callbacks the caller supplied. */
  datatype Callbacks = Callbacks(
    onWindowSwitch: bool,
    onWindowClose: bool,
    onWindowMinimize: bool,
    onWindowMaximize: bool,
    onSearchOpen: bool,
    onThemeToggle: bool,
    onEscape: bool)

  const AllCallbacks := Callbacks(true, true, true, true, true, true, true)

  predicate Supplied(c: Callbacks, a: Action) {
    match a
    case SwitchWindow(_) => c.onWindowSwitch
    case CloseWindow => c.onWindowClose
    case MinimizeWindow => c.onWindowMinimize
    case MaximizeWindow => c.onWindowMaximize
    case OpenSearch => c.onSearchOpen
    case ToggleTheme => c.onThemeToggle
    case Escape => c.onEscape
  }

  /** The `e.key` each branch of the handler tests. */
  function KeyOf(a: Action): string {
    match a
    case SwitchWindow(_) => "Tab"
    case CloseWindow => "F4"
    case MinimizeWindow => "m"
    case MaximizeWindow => "ArrowUp"
    case OpenSearch => " "
    case ToggleTheme => "t"
    case Escape => "Escape"
  }

  /** The condition of each branch of the handler. */
  predicate Matches(e: KeyEvent, a: Action) {
    match a
    case SwitchWindow(d) => e.alt && e.key == "Tab" && d == (if e.shift then Prev else Next)
    case CloseWindow => e.alt && e.key == "F4"
    case MinimizeWindow => (e.meta || e.ctrl) && e.key == "m"
    case MaximizeWindow => (e.meta || e.ctrl) && e.key == "ArrowUp"
    case OpenSearch => (e.meta || e.ctrl) && e.key == " "
    case ToggleTheme => (e.meta || e.ctrl) && e.key == "t"
    case Escape => e.key == "Escape"
  }

  /** One `if` of the handler: its callback runs when the condition holds and
      the callback was supplied (`?.()`). */
  function Fire(e: KeyEvent, c: Callbacks, a: Action): seq<Action> {
    if Matches(e, a) && Supplied(c, a) then [a] else []
  }

  /** `handleKeyDown`: the callbacks it calls, in order. Each branch tests a
      different key, so one event calls at most one callback, and a callback
      runs only for the key its branch tests. */
  function Dispatch(e: KeyEvent, c: Callbacks): (r: seq<Action>)
    ensures |r| <= 1
    ensures forall a :: a in r ==> Supplied(c, a) && Matches(e, a) && e.key == KeyOf(a)
    ensures forall a :: Matches(e, a) && Supplied(c, a) ==> r == [a]
  {
    Fire(e, c, SwitchWindow(if e.shift then Prev else Next))
    + Fire(e, c, CloseWindow)
    + Fire(e, c, MinimizeWindow)
    + Fire(e, c, MaximizeWindow)
    + Fire(e, c, OpenSearch)
    + Fire(e, c, ToggleTheme)
    + Fire(e, c, Escape)
  }

  /** `preventDefault` is called by every matching branch except Escape,
      whether or not its callback was supplied. */
  predicate PreventsDefault(e: KeyEvent) {
    || Matches(e, SwitchWindow(if e.shift then Prev else Next))
    || Matches(e, CloseWindow)
    || Matches(e, MinimizeWindow)
    || Matches(e, MaximizeWindow)
    || Matches(e, OpenSearch)
    || Matches(e, ToggleTheme)
  }

  /** Alt+Tab switches to the next window and Alt+Shift+Tab to the previous one. */
  lemma AltTab(e: KeyEvent)
    requires e.alt && e.key == "Tab"
    ensures Dispatch(e, AllCallbacks) == [SwitchWindow(if e.shift then Prev else Next)]
    ensures PreventsDefault(e)
  {
  }

  /** Alt+F4 closes. */
  lemma AltF4(e: KeyEvent)
    requires e.alt && e.key == "F4"
    ensures Dispatch(e, AllCallbacks) == [CloseWindow]
    ensures PreventsDefault(e)
  {
  }

  /** Ctrl or Meta with exactly `m`, `ArrowUp`, space or `t`. */
  lemma CommandShortcuts(e: KeyEvent)
    requires e.ctrl || e.meta
    ensures e.key == "m" ==> Dispatch(e, AllCallbacks) == [MinimizeWindow]
    ensures e.key == "ArrowUp" ==> Dispatch(e, AllCallbacks) == [MaximizeWindow]
    ensures e.key == " " ==> Dispatch(e, AllCallbacks) == [OpenSearch]
    ensures e.key == "t" ==> Dispatch(e, AllCallbacks) == [ToggleTheme]
    ensures e.key == "M" ==> Dispatch(e, AllCallbacks) == []
  {
  }

  /** Escape fires regardless of modifiers and is the one shortcut that leaves
      the browser's default action alone. */
  lemma EscapeKey(e: KeyEvent)
    requires e.key == "Escape"
    ensures Dispatch(e, AllCallbacks) == [Escape]
    ensures !PreventsDefault(e)
  {
  }

  /** A shortcut whose callback is missing calls nothing, but still prevents
      the default action. */
  lemma MissingCallbackSkipped(e: KeyEvent, c: Callbacks)
    requires e.alt && e.key == "F4" && !c.onWindowClose
    ensures Dispatch(e, c) == [] && PreventsDefault(e)
  {
  }

  /** The focus trap's Tab handler over `count` focusable elements, with
      `focused` the index of the focused one if it is among them. It returns
      the index to move focus to (after `preventDefault`), or none when the
      browser's own Tab handling proceeds. */
  function TrapTab(key: string, shift: bool, count: nat, focused: Option<nat>): (r: Option<nat>)
    ensures r.Some? ==> key == "Tab" && count > 0 && r.value < count
    ensures key == "Tab" && count > 0 && shift && focused == Some(0) ==> r == Some(count - 1)
    ensures key == "Tab" && count > 0 && !shift && focused == Some(count - 1) ==> r == Some(0)
    ensures r.Some? ==> focused == Some(if shift then 0 else count - 1)
  {
    if key != "Tab" || count == 0 then None
    else if shift && focused == Some(0) then Some(count - 1)
    else if !shift && focused == Some(count - 1) then Some(0)
    else None
  }
}
