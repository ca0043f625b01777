/**
 The leaderboard as a value, and why it is the top of a stable sort of all results.
 */
module Ranking {
  import opened Consts

  datatype Entry = Entry(date: string, name: string, score: int)

  const SIZE := 5

  predicate Descending(s: seq<Entry>) {
    forall i, j :: 0 <= i < j < |s| ==> s[i].score >= s[j].score
  }

  // ---------------------------------------------------------------- the board

  /** Where a new score goes: before the first smaller one, or at the very end. */
  function Position(board: seq<Entry>, score: int): (p: nat)
    requires |board| == SIZE
    ensures p < SIZE
    ensures forall i :: 0 <= i < p ==> board[i].score >= score
    ensures board[p].score < score || p == SIZE - 1
  {
    if score > board[0].score then 0
    else if score > board[1].score then 1
    else if score > board[2].score then 2
    else if score > board[3].score then 3
    else 4
  }

  function Inserted(board: seq<Entry>, e: Entry): (r: seq<Entry>)
    requires |board| == SIZE
    ensures |r| == SIZE
  {
    var p := Position(board, e.score);
    board[..p] + [e] + board[p..SIZE - 1]
  }

  /** A finished game: only a score above the lowest one is entered. */
  function Submit(board: seq<Entry>, e: Entry): (r: seq<Entry>)
    requires |board| == SIZE
    ensures |r| == SIZE
  {
    if e.score > board[SIZE - 1].score then Inserted(board, e) else board
  }

  function SubmitAll(board: seq<Entry>, games: seq<Entry>): (r: seq<Entry>)
    requires |board| == SIZE
    ensures |r| == SIZE
  {
    if games == [] then board
    else Submit(SubmitAll(board, games[..|games| - 1]), games[|games| - 1])
  }

  /** A game that is over: its result, and what would be entered for it. */
  datatype Finished = Finished(ws: Winner, entry: Entry)

  /** A tie goes to the leaderboard without passing the gate. */
  function Finish(board: seq<Entry>, game: Finished): (r: seq<Entry>)
    requires |board| == SIZE
    ensures |r| == SIZE
  {
    if game.ws == Tie then board else Submit(board, game.entry)
  }

  function FinishAll(board: seq<Entry>, games: seq<Finished>): (r: seq<Entry>)
    requires |board| == SIZE
    ensures |r| == SIZE
  {
    if games == [] then board
    else Finish(FinishAll(board, games[..|games| - 1]), games[|games| - 1])
  }

  /** The results of the games that were not tied, in order. */
  function Submitted(games: seq<Finished>): seq<Entry> {
    if games == [] then []
    else
      var last := games[|games| - 1];
      Submitted(games[..|games| - 1]) + if last.ws == Tie then [] else [last.entry]
  }

  lemma {:induction false} FinishAllSubmits(board: seq<Entry>, games: seq<Finished>)
    requires |board| == SIZE
    ensures FinishAll(board, games) == SubmitAll(board, Submitted(games))
    decreases |games|
  {
    if games != [] {
      var most, last := games[..|games| - 1], games[|games| - 1];
      FinishAllSubmits(board, most);
      assert (Submitted(most) + [last.entry])[..|Submitted(most)|] == Submitted(most);
      assert Submitted(most) + [] == Submitted(most);
    }
  }

  /** An entry is added and the old fifth one dropped; nothing else is lost or repeated. */
  lemma InsertedContents(board: seq<Entry>, e: Entry)
    requires |board| == SIZE
    ensures multiset(Inserted(board, e)) == multiset(board) - multiset{board[SIZE - 1]} + multiset{e}
  {
    var p := Position(board, e.score);
    assert board == board[..p] + board[p..SIZE - 1] + [board[SIZE - 1]];
  }

  // ---------------------------------------------------------------- stable sorting

  /** The entries with one given score, in order. */
  function WithScore(s: seq<Entry>, score: int): seq<Entry> {
    if s == [] then []
    else (if s[0].score == score then [s[0]] else []) + WithScore(s[1..], score)
  }

  /** `sorted` has the entries of `s` in descending order, equal scores in the order of `s`. */
  ghost predicate IsStableSort(sorted: seq<Entry>, s: seq<Entry>) {
    Descending(sorted) && forall score :: WithScore(sorted, score) == WithScore(s, score)
  }

  lemma {:induction false} WithScoreConcat(a: seq<Entry>, b: seq<Entry>, score: int)
    ensures WithScore(a + b, score) == WithScore(a, score) + WithScore(b, score)
    decreases |a|
  {
    if a == [] {
      assert a + b == b;
    } else {
      var head := if a[0].score == score then [a[0]] else [];
      assert (a + b)[0] == a[0] && (a + b)[1..] == a[1..] + b;
      WithScoreConcat(a[1..], b, score);
      assert WithScore(a + b, score) == head + (WithScore(a[1..], score) + WithScore(b, score));
    }
  }

  lemma {:induction false} WithScoreMember(s: seq<Entry>, score: int)
    ensures WithScore(s, score) != [] <==> exists i :: 0 <= i < |s| && s[i].score == score
    decreases |s|
  {
    if s != [] {
      WithScoreMember(s[1..], score);
      if exists i :: 0 <= i < |s| && s[i].score == score {
        var i :| 0 <= i < |s| && s[i].score == score;
        if i > 0 {
          assert s[1..][i - 1].score == score;
        }
      }
    }
  }

  lemma TailWithScore(s: seq<Entry>, score: int)
    requires s != []
    ensures s[0].score == score ==> WithScore(s, score) != [] && WithScore(s, score)[0] == s[0]
    ensures WithScore(s[1..], score) ==
            if s[0].score == score then WithScore(s, score)[1..] else WithScore(s, score)
  {
    assert s[0].score != score ==> WithScore(s, score) == [] + WithScore(s[1..], score);
  }

  /** Two descending sequences with the same entries for every score start with the same entry. */
  lemma SameHead(a: seq<Entry>, b: seq<Entry>)
    requires a != [] && Descending(a) && Descending(b)
    requires forall score :: WithScore(a, score) == WithScore(b, score)
    ensures b != [] && a[0] == b[0]
  {
    TailWithScore(a, a[0].score);
    assert WithScore(b, a[0].score) != [];
    WithScoreMember(b, a[0].score);
    TailWithScore(b, b[0].score);
    assert WithScore(a, b[0].score) != [];
    WithScoreMember(a, b[0].score);
    assert a[0].score == b[0].score;
    assert WithScore(a, a[0].score)[0] == WithScore(b, b[0].score)[0];
  }

  /** A stable sort is unique. */
  lemma {:induction false} StableSortIsUnique(a: seq<Entry>, b: seq<Entry>)
    requires Descending(a) && Descending(b)
    requires forall score :: WithScore(a, score) == WithScore(b, score)
    ensures a == b
    decreases |a|
  {
    if a != [] {
      SameHead(a, b);
      forall score ensures WithScore(a[1..], score) == WithScore(b[1..], score) {
        TailWithScore(a, score);
        TailWithScore(b, score);
      }
      StableSortIsUnique(a[1..], b[1..]);
      assert a == [a[0]] + a[1..] && b == [b[0]] + b[1..];
    } else if b != [] {
      SameHead(b, a);
    }
  }

  /** The number of leading entries that are not below `score`. */
  function Rank(s: seq<Entry>, score: int): (r: nat)
    ensures r <= |s|
    ensures forall i :: 0 <= i < r ==> s[i].score >= score
    ensures r < |s| ==> s[r].score < score
  {
    if s == [] || s[0].score < score then 0 else 1 + Rank(s[1..], score)
  }

  function Ranked(s: seq<Entry>, e: Entry): seq<Entry> {
    var r := Rank(s, e.score);
    s[..r] + [e] + s[r..]
  }

  function Sort(s: seq<Entry>): seq<Entry> {
    if s == [] then [] else Ranked(Sort(s[..|s| - 1]), s[|s| - 1])
  }

  lemma RankedDescends(s: seq<Entry>, e: Entry)
    requires Descending(s)
    ensures Descending(Ranked(s, e))
  {
    var r, t := Rank(s, e.score), Ranked(s, e);
    forall i, j | 0 <= i < j < |t| ensures t[i].score >= t[j].score {
      assert i < r ==> t[i] == s[i] && s[i].score >= e.score;
      assert j > r ==> t[j] == s[j - 1] && s[r].score >= s[j - 1].score;
      assert i > r ==> t[i] == s[i - 1];
    }
  }

  lemma {:induction false} NoneWithScore(s: seq<Entry>, score: int)
    requires forall i :: 0 <= i < |s| ==> s[i].score < score
    ensures WithScore(s, score) == []
    decreases |s|
  {
    if s != [] {
      NoneWithScore(s[1..], score);
    }
  }

  lemma InsertKeepsOrder(before: seq<Entry>, e: Entry, after: seq<Entry>, score: int)
    requires WithScore(after, e.score) == []
    ensures WithScore(before + [e] + after, score) == WithScore(before + after, score) + WithScore([e], score)
  {
    var a, x, b := WithScore(before, score), WithScore([e], score), WithScore(after, score);
    WithScoreConcat(before + [e], after, score);
    WithScoreConcat(before, [e], score);
    WithScoreConcat(before, after, score);
    if score == e.score {
      assert a + x + b == a + b + x;
    } else {
      assert x == [];
      assert a + x + b == a + b + x;
    }
  }

  lemma RankedKeepsOrder(s: seq<Entry>, e: Entry, score: int)
    requires Descending(s)
    ensures WithScore(Ranked(s, e), score) == WithScore(s, score) + WithScore([e], score)
  {
    var r := Rank(s, e.score);
    assert forall i :: 0 <= i < |s[r..]| ==> s[r..][i].score <= s[r].score;
    NoneWithScore(s[r..], e.score);
    InsertKeepsOrder(s[..r], e, s[r..], score);
    assert s == s[..r] + s[r..];
  }

  lemma {:induction false} SortIsStable(s: seq<Entry>)
    ensures IsStableSort(Sort(s), s) && |Sort(s)| == |s|
    decreases |s|
  {
    if s != [] {
      var most, e := s[..|s| - 1], s[|s| - 1];
      SortIsStable(most);
      RankedDescends(Sort(most), e);
      assert s == most + [e];
      forall score ensures WithScore(Sort(s), score) == WithScore(s, score) {
        RankedKeepsOrder(Sort(most), e, score);
        WithScoreConcat(most, [e], score);
      }
    }
  }

  // ---------------------------------------------------------------- the board is the top of the sort

  lemma SubmitKeepsTop(sorted: seq<Entry>, e: Entry)
    requires Descending(sorted) && |sorted| >= SIZE
    ensures Submit(sorted[..SIZE], e) == Ranked(sorted, e)[..SIZE]
  {
    var board, r := sorted[..SIZE], Rank(sorted, e.score);
    if r < SIZE {
      assert board[SIZE - 1].score <= sorted[r].score;
      assert Position(board, e.score) == r;
      assert board[r..SIZE - 1] == sorted[r..][..SIZE - 1 - r];
    } else {
      assert board[SIZE - 1].score >= e.score;
    }
  }

  lemma {:induction false} BoardIsTopOfSort(board: seq<Entry>, games: seq<Entry>)
    requires |board| == SIZE && Descending(board)
    ensures |Sort(board + games)| >= SIZE
    ensures SubmitAll(board, games) == Sort(board + games)[..SIZE]
    decreases |games|
  {
    SortIsStable(board + games);
    if games == [] {
      assert board + games == board;
      StableSortIsUnique(Sort(board), board);
    } else {
      var most, e := games[..|games| - 1], games[|games| - 1];
      BoardIsTopOfSort(board, most);
      SortIsStable(board + most);
      assert (board + games)[..|board + games| - 1] == board + most;
      SubmitKeepsTop(Sort(board + most), e);
    }
  }

  /** After any games the board is the first five of the stable descending sort of all that were not tied. */
  lemma BoardIsTopFive(board: seq<Entry>, games: seq<Finished>, sorted: seq<Entry>)
    requires |board| == SIZE && Descending(board)
    requires IsStableSort(sorted, board + Submitted(games))
    ensures |sorted| == SIZE + |Submitted(games)| && FinishAll(board, games) == sorted[..SIZE]
    ensures Descending(FinishAll(board, games))
  {
    FinishAllSubmits(board, games);
    BoardIsTopOfSort(board, Submitted(games));
    SortIsStable(board + Submitted(games));
    StableSortIsUnique(sorted, Sort(board + Submitted(games)));
  }

  lemma SubmitChanges(board: seq<Entry>, e: Entry)
    requires |board| == SIZE && e.score > board[SIZE - 1].score
    ensures Submit(board, e) != board
  {
    var p := Position(board, e.score);
    assert Submit(board, e)[p] == e && board[p].score < e.score;
  }

  /**
   One more game: the new board is the top five with its result if and only if it was not
   tied or would not have been entered anyway.
   */
  lemma GameIsRankedIff(board: seq<Entry>, games: seq<Finished>, game: Finished, sorted: seq<Entry>)
    requires |board| == SIZE && Descending(board)
    requires IsStableSort(sorted, board + Submitted(games) + [game.entry])
    ensures |sorted| >= SIZE
    ensures FinishAll(board, games + [game]) == sorted[..SIZE]
            <==> game.ws != Tie || game.entry.score <= FinishAll(board, games)[SIZE - 1].score
  {
    var won := game.(ws := Winner1);
    assert (games + [won])[..|games|] == games && (games + [game])[..|games|] == games;
    assert board + Submitted(games + [won]) == board + Submitted(games) + [game.entry];
    BoardIsTopFive(board, games + [won], sorted);
    if game.entry.score > FinishAll(board, games)[SIZE - 1].score {
      SubmitChanges(FinishAll(board, games), game.entry);
    }
  }
}
