/** The search overlay: its own result list, the query it resets when it
    opens, and the selection cursor its key handler moves. */
module SearchBar {
  import opened Wrappers
  import opened Seqs
  import opened Text
  import opened Search
  import Js

  const BlankQueryShows := 5

  /** The overlay's `results`: for a blank query the first five items,
      otherwise the same list the search hook computes. */
  function OverlayResults(items: seq<SearchItem>, query: string): (r: seq<SearchItem>)
    ensures IsBlank(query) ==> r <= items && |r| == if |items| < BlankQueryShows then |items| else BlankQueryShows
    ensures !IsBlank(query) ==> r == SearchResults(items, query)
    ensures |r| <= MaxResults
  {
    if IsBlank(query) then Take(items, BlankQueryShows) else Take(Matching(items, query), MaxResults)
  }

  /** The selected index as JavaScript holds it: a whole number, or `NaN`
      once a wrap has been computed modulo an empty result list. */
  datatype Cursor = At(index: nat) | NaN

  /** One arrow key applied to the cursor over `n` results, as written:
      `(i + 1) % n` and `(i - 1 + n) % n`. With no results both are `NaN`,
      and every later step from `NaN` is `NaN` again. */
  function StepCursor(c: Cursor, down: bool, n: nat): (r: Cursor)
    ensures r.At? ==> r.index < n
    ensures n > 0 && c.At? ==> r.At?
    ensures n == 0 || c.NaN? ==> r.NaN?
    ensures n > 0 && c.At? && down ==> r.index == (c.index + 1) % n
    ensures n > 0 && c.At? && !down ==> r.index == (c.index - 1 + n) % n
  {
    if n == 0 || c.NaN? then NaN
    else if down then At((c.index + 1) % n)
    else At((c.index - 1 + n) % n)
  }

  /** Down then up, or up then down, returns to a cursor inside the list. */
  lemma StepCursorRoundTrip(i: nat, n: nat)
    requires i < n
    ensures StepCursor(StepCursor(At(i), true, n), false, n) == At(i)
    ensures StepCursor(StepCursor(At(i), false, n), true, n) == At(i)
  {
    var d := StepCursor(At(i), true, n);
    Js.ModOnce(i + 1, n);
    Js.ModOnce(d.index - 1 + n, n);
    var u := StepCursor(At(i), false, n);
    Js.ModOnce(i - 1 + n, n);
    Js.ModOnce(u.index + 1, n);
  }

  /** An arrow key pressed while nothing matches leaves the cursor `NaN`
      for good: arrows keep it `NaN` whatever the later result counts. */
  lemma NaNCursorSticks(i: nat, down: bool, later: seq<(bool, nat)>)
    ensures StepCursor(At(i), down, 0) == NaN
    ensures Steps(NaN, later) == NaN
  {
    NaNStaysNaN(later);
  }

  /** A run of arrow keys, each with the result count at that moment. */
  function Steps(c: Cursor, keys: seq<(bool, nat)>): Cursor
    decreases |keys|
  {
    if keys == [] then c else Steps(StepCursor(c, keys[0].0, keys[0].1), keys[1..])
  }

  lemma {:induction false} NaNStaysNaN(keys: seq<(bool, nat)>)
    ensures Steps(NaN, keys) == NaN
    decreases |keys|
  {
    if keys != [] {
      NaNStaysNaN(keys[1..]);
    }
  }

  /** The arrow step as evidently intended: with no results the cursor stays
      where it is, so it is always a whole number. */
  function StepCursorGuarded(i: nat, down: bool, n: nat): (r: nat)
    ensures n > 0 ==> r < n
    ensures n == 0 ==> r == i
    ensures n > 0 ==> At(r) == StepCursor(At(i), down, n)
  {
    if n == 0 then i
    else if down then (i + 1) % n
    else (i - 1 + n) % n
  }

  /** What a key press asks of the overlay's parent. */
  datatype Request = NoRequest | SelectRequest(item: SearchItem) | CloseRequest

  /** The overlay's `query` and `selectedIndex`, its `isOpen` prop and the
      fixed `items` prop. */
  class Overlay {
    const items: seq<SearchItem>
    var isOpen: bool
    var query: string
    var cursor: Cursor

    constructor (items: seq<SearchItem>, open: bool)
      ensures this.items == items && isOpen == open && query == "" && cursor == At(0)
    {
      this.items := items;
      isOpen := open;
      query := "";
      cursor := At(0);
    }

    function Results(): seq<SearchItem>
      reads this
    {
      OverlayResults(items, query)
    }

    /** A new `isOpen` prop; becoming open resets the query and the cursor. */
    method SetOpen(open: bool)
      modifies this
      ensures isOpen == open
      ensures open && !old(isOpen) ==> query == "" && cursor == At(0)
      ensures !(open && !old(isOpen)) ==> query == old(query) && cursor == old(cursor)
    {
      if open && !isOpen {
        query := "";
        cursor := At(0);
      }
      isOpen := open;
    }

    /** Typing into the input changes the query only; the cursor is not reset. */
    method Edit(q: string)
      modifies this
      ensures query == q && cursor == old(cursor) && isOpen == old(isOpen)
    {
      query := q;
    }

    /** The window keydown listener. Every key is ignored while the overlay is
        closed. Enter selects the result under the cursor only if there is one. */
    method KeyDown(key: string) returns (request: Request, prevented: bool)
      modifies this
      ensures query == old(query) && isOpen == old(isOpen)
      ensures !old(isOpen) ==> request == NoRequest && !prevented && cursor == old(cursor)
      ensures old(isOpen) && key == "ArrowDown" ==>
        cursor == StepCursor(old(cursor), true, |Results()|) && request == NoRequest && prevented
      ensures old(isOpen) && key == "ArrowUp" ==>
        cursor == StepCursor(old(cursor), false, |Results()|) && request == NoRequest && prevented
      ensures old(isOpen) && key == "Enter" ==>
        && cursor == old(cursor) && prevented
        && (if cursor.At? && cursor.index < |Results()| then request == SelectRequest(Results()[cursor.index])
            else request == NoRequest)
      ensures old(isOpen) && key == "Escape" ==> cursor == old(cursor) && prevented && request == CloseRequest
      ensures old(isOpen) && key != "ArrowDown" && key != "ArrowUp" && key != "Enter" && key != "Escape" ==>
        cursor == old(cursor) && request == NoRequest && !prevented
    {
      request, prevented := NoRequest, false;
      if !isOpen {
        return;
      }
      var results := OverlayResults(items, query);
      if key == "ArrowDown" {
        prevented := true;
        cursor := StepCursor(cursor, true, |results|);
      } else if key == "ArrowUp" {
        prevented := true;
        cursor := StepCursor(cursor, false, |results|);
      } else if key == "Enter" {
        prevented := true;
        if cursor.At? && cursor.index < |results| {
          request := SelectRequest(results[cursor.index]);
        }
      } else if key == "Escape" {
        prevented := true;
        request := CloseRequest;
      }
    }
  }

  /** With one item titled "A", typing "ab" matches nothing and ArrowDown
      makes the cursor `NaN`; after the query is cleared the item is listed
      again, yet Enter selects nothing. */
  method NaNCursorScenario() returns (afterArrow: Cursor, listed: nat, request: Request)
    ensures afterArrow == NaN
    ensures listed == 1
    ensures request == NoRequest
  {
    var item := SearchItem("about", AppItem, "A", "");
    var o := new Overlay([item], true);
    o.Edit("ab");
    assert !TitleMatches("ab")(item);
    assert Matching([item], "ab") == [];
    assert !IsBlank("ab") by { assert !IsTrimmed("ab"[0]); }
    assert o.Results() == [];
    var r1, p1 := o.KeyDown("ArrowDown");
    afterArrow := o.cursor;
    o.Edit("");
    listed := |o.Results()|;
    var p2;
    request, p2 := o.KeyDown("Enter");
  }
}
