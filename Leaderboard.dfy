/** The leaderboard: a copy of the entries sorted by score, highest first and
    stable among equal scores, split into the podium and the rest, with the
    icon each rank gets. */
module Leaderboard {
  import opened Wrappers
  import opened Seqs

  datatype Entry = Entry(id: string, name: string, score: int, avatar: Option<string>, date: string)

  /** Scores never increase along the list. */
  predicate Descending(s: seq<Entry>) {
    forall i, j :: 0 <= i < j < |s| ==> s[i].score >= s[j].score
  }

  /** Places `e` ahead of the first entry whose score does not exceed its own,
      so it lands after every higher score and before every equal one. */
  function Insert(e: Entry, s: seq<Entry>): (r: seq<Entry>)
    ensures multiset(r) == multiset(s) + multiset{e}
    ensures |r| == |s| + 1
    decreases |s|
  {
    if s == [] || s[0].score <= e.score then [e] + s
    else
      assert s == [s[0]] + s[1..];
      [s[0]] + Insert(e, s[1..])
  }

  /** `[...entries].sort((a, b) => b.score - a.score)`: a stable sort, so each
      entry is inserted ahead of the equal scores that follow it. */
  function SortByScore(s: seq<Entry>): (r: seq<Entry>)
    ensures multiset(r) == multiset(s)
    ensures |r| == |s|
    decreases |s|
  {
    if s == [] then []
    else
      assert s == [s[0]] + s[1..];
      Insert(s[0], SortByScore(s[1..]))
  }

  /** Inserting into a descending list keeps it descending. */
  lemma {:induction false} InsertDescending(e: Entry, s: seq<Entry>)
    requires Descending(s)
    ensures Descending(Insert(e, s))
    decreases |s|
  {
    if s != [] && s[0].score > e.score {
      InsertDescending(e, s[1..]);
      InsertFirst(e, s[1..]);
      var r := Insert(e, s);
      forall i, j | 0 <= i < j < |r| ensures r[i].score >= r[j].score {
        if i == 0 {
          assert r[j] in multiset(s[1..]) + multiset{e};
          if r[j] == e {
          } else {
            assert r[j] in s[1..];
            var k :| 0 <= k < |s[1..]| && s[1..][k] == r[j];
            assert s[k + 1] == r[j];
          }
        } else {
          assert r[i] == Insert(e, s[1..])[i - 1] && r[j] == Insert(e, s[1..])[j - 1];
        }
      }
    }
  }

  /** The first entry after an insertion is `e` or the old first entry. */
  lemma InsertFirst(e: Entry, s: seq<Entry>)
    ensures Insert(e, s)[0] == e || (s != [] && Insert(e, s)[0] == s[0])
  {
  }

  lemma {:induction false} SortDescending(s: seq<Entry>)
    ensures Descending(SortByScore(s))
    decreases |s|
  {
    if s != [] {
      SortDescending(s[1..]);
      InsertDescending(s[0], SortByScore(s[1..]));
    }
  }

  /** The entries with score `v`, in their order in `s`. */
  function WithScore(s: seq<Entry>, v: int): seq<Entry>
    decreases |s|
  {
    if s == [] then []
    else (if s[0].score == v then [s[0]] else []) + WithScore(s[1..], v)
  }

  lemma WithScoreCons(e: Entry, s: seq<Entry>, v: int)
    ensures WithScore([e] + s, v) == (if e.score == v then [e] else []) + WithScore(s, v)
  {
    assert ([e] + s)[1..] == s;
  }

  /** Insertion puts `e` ahead of every entry with its score, and leaves the
      relative order of the other entries alone. */
  lemma {:induction false} InsertWithScore(e: Entry, s: seq<Entry>, v: int)
    ensures WithScore(Insert(e, s), v) == (if e.score == v then [e] else []) + WithScore(s, v)
    decreases |s|
  {
    if s == [] || s[0].score <= e.score {
      WithScoreCons(e, s, v);
    } else {
      var t := Insert(e, s[1..]);
      assert Insert(e, s) == [s[0]] + t;
      WithScoreCons(s[0], t, v);
      InsertWithScore(e, s[1..], v);
      assert e.score == v ==> s[0].score != v;
    }
  }

  /** Stability: the entries with any one score appear in the sorted list in
      the order they had in the input. */
  lemma {:induction false} SortStable(s: seq<Entry>, v: int)
    ensures WithScore(SortByScore(s), v) == WithScore(s, v)
    decreases |s|
  {
    if s != [] {
      SortStable(s[1..], v);
      InsertWithScore(s[0], SortByScore(s[1..]), v);
    }
  }

  /** The sorted list is a permutation of the input, descending by score and
      stable among equal scores. */
  lemma SortByScoreCorrect(s: seq<Entry>)
    ensures multiset(SortByScore(s)) == multiset(s)
    ensures Descending(SortByScore(s))
    ensures forall v :: WithScore(SortByScore(s), v) == WithScore(s, v)
  {
    SortDescending(s);
    forall v ensures WithScore(SortByScore(s), v) == WithScore(s, v) {
      SortStable(s, v);
    }
  }

  /** `sortedEntries.slice(0, 3)`. */
  function TopThree(sorted: seq<Entry>): (r: seq<Entry>)
    ensures r <= sorted && |r| == if |sorted| < 3 then |sorted| else 3
  {
    Take(sorted, 3)
  }

  /** `sortedEntries.slice(3)`. */
  function Rest(sorted: seq<Entry>): (r: seq<Entry>)
    ensures |r| == if |sorted| < 3 then 0 else |sorted| - 3
  {
    if |sorted| < 3 then [] else sorted[3..]
  }

  /** The podium and the rest together are the sorted list. */
  lemma SplitJoins(sorted: seq<Entry>)
    ensures TopThree(sorted) + Rest(sorted) == sorted
  {
    if |sorted| >= 3 {
      assert sorted[..3] + sorted[3..] == sorted;
    }
  }

  datatype RankIcon = Trophy | Medal | Award | Numbered(number: nat)

  /** `getRankIcon`: the podium icons for ranks 0 to 2, `#(rank + 1)` after. */
  function RankIconOf(rank: nat): (r: RankIcon)
    ensures rank == 0 <==> r == Trophy
    ensures rank == 1 <==> r == Medal
    ensures rank == 2 <==> r == Award
    ensures rank >= 3 <==> r.Numbered?
    ensures r.Numbered? ==> r.number == rank + 1 && r.number >= 4
  {
    if rank == 0 then Trophy else if rank == 1 then Medal else if rank == 2 then Award
    else Numbered(rank + 1)
  }

  /** The rows drawn: podium entries with their index as rank, rest entries
      with their index plus 3. */
  function Rows(sorted: seq<Entry>): seq<(Entry, RankIcon)> {
    var top := TopThree(sorted);
    var rest := Rest(sorted);
    seq(|top|, i requires 0 <= i < |top| => (top[i], RankIconOf(i)))
    + seq(|rest|, i requires 0 <= i < |rest| => (rest[i], RankIconOf(i + 3)))
  }

  /** Every sorted entry is drawn once, in order, with the icon of its own
      position in the sorted list. */
  lemma RowsRankBySortedPosition(sorted: seq<Entry>)
    ensures |Rows(sorted)| == |sorted|
    ensures forall k :: 0 <= k < |sorted| ==> Rows(sorted)[k] == (sorted[k], RankIconOf(k))
  {
    var top, rest := TopThree(sorted), Rest(sorted);
    var rows := Rows(sorted);
    forall k | 0 <= k < |sorted| ensures rows[k] == (sorted[k], RankIconOf(k)) {
      if k < |top| {
        assert rows[k] == (top[k], RankIconOf(k));
      } else {
        assert rows[k] == (rest[k - 3], RankIconOf(k - 3 + 3));
      }
    }
  }

  /** A row is highlighted when its id is the current user's; with no current
      user nothing is. */
  predicate Highlighted(e: Entry, currentUserId: Option<string>) {
    currentUserId == Some(e.id)
  }

  /** The empty-state message is shown exactly when there are no entries, in
      which case nothing else is drawn. */
  lemma EmptyState(entries: seq<Entry>)
    ensures |entries| == 0 <==> Rows(SortByScore(entries)) == []
  {
    RowsRankBySortedPosition(SortByScore(entries));
  }
}
