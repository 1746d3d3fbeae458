/** The leaderboard kept in the browser's local storage: each save appends
    the new score, ranks the list by rooms (more first) and then by time
    (less first), and keeps the ten best. */
module Storage {
  import opened Wrappers
  import opened Seqs
  import opened Sorting

  /** One saved score. `id` and `date` come from the clock. */
  datatype Entry = Entry(id: int, playerName: string, time: int, rooms: int, date: string)

  /** The number of scores kept. */
  const MAX_ENTRIES: nat := 10

  /** The comparator of `saveScore` is negative for `(a, b)`, so `a` goes
      first: `a` has more rooms, or as many rooms in less time. */
  predicate RanksAbove(a: Entry, b: Entry) {
    if b.rooms != a.rooms then b.rooms - a.rooms < 0 else a.time - b.time < 0
  }

  lemma RanksAboveIsStrictOrder()
    ensures StrictOrder(RanksAbove)
  {
  }

  /** A falsy player name is stored as "Anonymous". */
  function DisplayName(playerName: string): (r: string)
    ensures playerName != "" ==> r == playerName
    ensures playerName == "" ==> r == "Anonymous"
  {
    if playerName == "" then "Anonymous" else playerName
  }

  /** The new list: the stored one with `e` pushed, sorted, cut to ten. */
  function TopScores(board: seq<Entry>, e: Entry): (r: seq<Entry>)
    ensures |r| == if |board| + 1 < MAX_ENTRIES then |board| + 1 else MAX_ENTRIES
    ensures forall x :: x in r ==> x in board || x == e
  {
    var ranked := Sort(board + [e], RanksAbove);
    assert |ranked| == |multiset(ranked)| == |multiset(board + [e])| == |board| + 1;
    var r := Take(ranked, MAX_ENTRIES);
    assert forall x :: x in r ==> x in multiset(ranked);
    r
  }

  /** The kept list is ranked: rooms never increase down the list, and
      among equal rooms the time never decreases. */
  lemma {:induction false} TopScoresRanked(board: seq<Entry>, e: Entry)
    ensures var r := TopScores(board, e);
      forall i, j :: 0 <= i < j < |r| ==>
        r[i].rooms >= r[j].rooms && (r[i].rooms == r[j].rooms ==> r[i].time <= r[j].time)
  {
    RanksAboveIsStrictOrder();
    var ranked := Sort(board + [e], RanksAbove);
    SortSorted(board + [e], RanksAbove);
    var r := TopScores(board, e);
    forall i, j | 0 <= i < j < |r|
      ensures r[i].rooms >= r[j].rooms && (r[i].rooms == r[j].rooms ==> r[i].time <= r[j].time)
    {
      assert r[i] == ranked[i] && r[j] == ranked[j];
      assert !RanksAbove(ranked[j], ranked[i]);
    }
  }

  /** The kept list is at most ten entries long and ranked. */
  lemma TopScoresKeepsValid(board: seq<Entry>, e: Entry)
    ensures |TopScores(board, e)| <= MAX_ENTRIES && SortedBy(TopScores(board, e), RanksAbove)
  {
    RanksAboveIsStrictOrder();
    SortSorted(board + [e], RanksAbove);
  }

  /** Every kept entry was stored before or is the new one, each at most
      as often as it occurs there. */
  lemma TopScoresNoneInvented(board: seq<Entry>, e: Entry)
    ensures multiset(TopScores(board, e)) <= multiset(board) + multiset{e}
  {
    var ranked := Sort(board + [e], RanksAbove);
    var r := TopScores(board, e);
    assert ranked == r + ranked[|r|..];
    assert multiset(ranked) == multiset(r) + multiset(ranked[|r|..]);
    assert multiset(board + [e]) == multiset(board) + multiset{e};
  }

  /** On a ranked list the new entry goes after every entry it does not
      outrank (`Rank` counts them, ties included, since the sort is stable);
      it is kept, at that position and with the entries above it in place,
      exactly when fewer than ten entries are ahead of it, and otherwise the
      list is unchanged but for its length. */
  lemma {:induction false} NewEntryPlacement(board: seq<Entry>, e: Entry)
    requires SortedBy(board, RanksAbove)
    ensures var r := TopScores(board, e); var k := Rank(e, board, RanksAbove);
      && (k < MAX_ENTRIES ==> k < |r| && r[k] == e && r[..k] == board[..k])
      && (k >= MAX_ENTRIES ==> r == board[..MAX_ENTRIES])
  {
    SortAppend(board, e, RanksAbove);
    InsertAt(e, board, RanksAbove);
    KeepInserted(board, e, Rank(e, board, RanksAbove));
  }

  lemma KeepInserted(board: seq<Entry>, e: Entry, k: nat)
    requires k <= |board|
    ensures var r := Take(board[..k] + [e] + board[k..], MAX_ENTRIES);
      && (k < MAX_ENTRIES ==> k < |r| && r[k] == e && r[..k] == board[..k])
      && (k >= MAX_ENTRIES ==> r == board[..MAX_ENTRIES])
  {
    var ranked := board[..k] + [e] + board[k..];
    if k < MAX_ENTRIES {
      assert ranked[k] == e && ranked[..k] == board[..k];
    } else {
      assert ranked[..MAX_ENTRIES] == board[..MAX_ENTRIES];
    }
  }

  /** The persisted leaderboard: `stored` is the value under the storage
      key, absent until the first save and after a clear. */
  class Leaderboard {
    var stored: Option<seq<Entry>>

    /** What every save leaves behind: at most ten entries, ranked. */
    ghost predicate Valid()
      reads this
    {
      stored.Some? ==> |stored.value| <= MAX_ENTRIES && SortedBy(stored.value, RanksAbove)
    }

    constructor ()
      ensures Valid() && stored == None
    {
      stored := None;
    }

    /** The stored list, or the empty list when nothing is stored. */
    function Board(): (r: seq<Entry>)
      reads this
      ensures stored.None? ==> r == []
      ensures stored.Some? ==> r == stored.value
    {
      if stored.Some? then stored.value else []
    }

    /** `getLeaderboard`. */
    method GetLeaderboard() returns (r: seq<Entry>)
      ensures stored.None? ==> r == []
      ensures stored.Some? ==> r == stored.value
    {
      match stored {
        case None => r := [];
        case Some(data) => r := data;
      }
    }

    /** `saveScore` with the clock's readings `id` and `date` as inputs;
        `writeFails` is a failing storage write, after which the stored
        list is returned as it was. */
    method SaveScore(playerName: string, timeInSeconds: int, roomsCompleted: int,
                     id: int, date: string, writeFails: bool) returns (topScores: seq<Entry>)
      requires Valid()
      modifies this
      ensures Valid()
      ensures var e := Entry(id, DisplayName(playerName), timeInSeconds, roomsCompleted, date);
        !writeFails ==> topScores == TopScores(old(Board()), e) && stored == Some(topScores)
      ensures writeFails ==> topScores == old(Board()) && stored == old(stored)
    {
      var leaderboard := GetLeaderboard();
      var newScore := Entry(id, DisplayName(playerName), timeInSeconds, roomsCompleted, date);
      leaderboard := leaderboard + [newScore];
      leaderboard := Sort(leaderboard, RanksAbove);
      topScores := Take(leaderboard, MAX_ENTRIES);
      if writeFails {
        topScores := GetLeaderboard();
        return;
      }
      TopScoresKeepsValid(Board(), newScore);
      stored := Some(topScores);
    }

    /** `clearLeaderboard`: the key is removed. */
    method ClearLeaderboard()
      modifies this
      ensures Valid() && stored == None
    {
      stored := None;
    }
  }
}
