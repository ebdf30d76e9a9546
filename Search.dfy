/** The search hook: the result list for a query, and the open/closed state of
    search together with its query. */
module Search {
  import opened Seqs
  import opened Text

  datatype ItemType = AppItem | FileItem | SettingItem

  /** A searchable entry. Its `action` is a callback, represented by the
      entry itself when it runs. */
  datatype SearchItem = SearchItem(id: string, kind: ItemType, title: string, icon: string)

  const MaxResults := 10

  /** The filter test for a query: the lowered title includes the lowered query. */
  function TitleMatches(query: string): SearchItem -> bool {
    (item: SearchItem) => MatchesIgnoringCase(item.title, query)
  }

  /** Every item whose title matches, in list order. */
  function Matching(items: seq<SearchItem>, query: string): (r: seq<SearchItem>)
    ensures forall x :: x in r <==> x in items && MatchesIgnoringCase(x.title, query)
    ensures forall x :: multiset(r)[x] == if MatchesIgnoringCase(x.title, query) then multiset(items)[x] else 0
    ensures IsSubsequence(r, items)
  {
    FilterIsSubsequence(TitleMatches(query), items);
    FilterMultiplicity(TitleMatches(query), items);
    Filter(TitleMatches(query), items)
  }

  /** The hook's `results`: nothing for a blank query, otherwise the first ten
      matching items in list order. */
  function SearchResults(items: seq<SearchItem>, query: string): (r: seq<SearchItem>)
    ensures IsBlank(query) ==> r == []
    ensures !IsBlank(query) ==> r <= Matching(items, query)
    ensures !IsBlank(query) ==> |r| == if |Matching(items, query)| < MaxResults then |Matching(items, query)| else MaxResults
  {
    if IsBlank(query) then [] else Take(Matching(items, query), MaxResults)
  }

  /** Every result matches, the results keep the items' order, and with fewer
      than eleven matches none is dropped. */
  lemma SearchResultsSound(items: seq<SearchItem>, query: string)
    ensures forall x :: x in SearchResults(items, query) ==> x in items && MatchesIgnoringCase(x.title, query)
    ensures IsSubsequence(SearchResults(items, query), items)
    ensures |SearchResults(items, query)| <= MaxResults
    ensures !IsBlank(query) && |Matching(items, query)| <= MaxResults ==>
      forall x :: x in items && MatchesIgnoringCase(x.title, query) ==> x in SearchResults(items, query)
  {
    var m := Matching(items, query);
    var r := SearchResults(items, query);
    if !IsBlank(query) {
      PrefixIsSubsequence(r, m);
      SubsequenceTransitive(r, m, items);
      forall x | x in r ensures x in m {
        var k :| 0 <= k < |r| && r[k] == x;
        assert m[k] == x;
      }
    }
  }

  /** The hook's `query` and `isOpen`, over its fixed `items`. */
  class SearchHook {
    const items: seq<SearchItem>
    var query: string
    var isOpen: bool

    constructor (items: seq<SearchItem>)
      ensures this.items == items && query == "" && !isOpen
    {
      this.items := items;
      query := "";
      isOpen := false;
    }

    function Results(): seq<SearchItem>
      reads this
    {
      SearchResults(items, query)
    }

    method SetQuery(q: string)
      modifies this
      ensures query == q && isOpen == old(isOpen)
    {
      query := q;
    }

    /** `openSearch`. */
    method Open()
      modifies this
      ensures isOpen && query == ""
      ensures Results() == []
    {
      isOpen := true;
      query := "";
    }

    /** `closeSearch`. */
    method Close()
      modifies this
      ensures !isOpen && query == ""
    {
      isOpen := false;
      query := "";
    }

    /** `toggleSearch`: flips `isOpen` and clears the query only when search
        was open, judged by the `isOpen` of the render that built it. */
    method Toggle()
      modifies this
      ensures isOpen == !old(isOpen)
      ensures old(isOpen) ==> query == ""
      ensures !old(isOpen) ==> query == old(query)
    {
      var wasOpen := isOpen;
      isOpen := !isOpen;
      if wasOpen {
        query := "";
      }
    }

    /** `executeSearch`: the result's action runs, then search closes with an
        empty query. */
    method Execute(result: SearchItem) returns (ran: SearchItem)
      modifies this
      ensures ran == result
      ensures !isOpen && query == ""
    {
      ran := result;
      Close();
    }
  }
}
