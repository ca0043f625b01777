/** The leaderboard array and its handlers (proj/leaderboard.c, proj/highscore.c). */
module Leaderboard {
  import opened Consts
  import opened Ranking
  import opened LeaderboardText

  class Leaderboard {
    const board: array<Entry>
    var newWinner: Entry
    var file: string  // the text of leaderboard.txt

    ghost predicate Valid() {
      board.Length == SIZE
    }

    constructor ()
      ensures Valid() && fresh(board)
    {
      board := new Entry[SIZE](_ => Entry("", "", 0));
      newWinner := Entry("", "", 0);
      file := "";
    }

    method GetNewHiScorePos() returns (p: nat)
      requires Valid()
      ensures p == Position(board[..], newWinner.score)
    {
      if newWinner.score > board[0].score {
        return 0;
      } else if newWinner.score > board[1].score {
        return 1;
      } else if newWinner.score > board[2].score {
        return 2;
      } else if newWinner.score > board[3].score {
        return 3;
      } else if newWinner.score > board[4].score {
        return 4;
      }
      return 4;
    }

    /** Rotates the entries below the new one by one place, with `newWinner` as scratch space. */
    method UpdateData()
      requires Valid()
      modifies board, `newWinner
      ensures board[..] == Inserted(old(board[..]), old(newWinner))
      ensures newWinner == if Position(old(board[..]), old(newWinner.score)) == SIZE - 1
                           then old(newWinner) else old(board[SIZE - 1])
    {
      ghost var was, e := board[..], newWinner;
      var i := GetNewHiScorePos();
      ghost var p := i;
      var temp := board[i];
      board[i] := newWinner;
      i := i + 1;
      while i < SIZE
        invariant p < i <= SIZE
        invariant temp == was[i - 1]
        invariant forall j :: 0 <= j < p ==> board[j] == was[j]
        invariant board[p] == e
        invariant forall j :: p < j < i ==> board[j] == was[j - 1]
        invariant forall j :: i <= j < SIZE ==> board[j] == was[j]
        invariant newWinner == if i == p + 1 then e else was[i - 1]
      {
        newWinner := board[i];
        board[i] := temp;
        temp := newWinner;
        i := i + 1;
      }
      assert board[..] == was[..p] + [e] + was[p..SIZE - 1];
    }

    method GetLowestHiScore() returns (score: int)
      requires Valid()
      ensures score == board[SIZE - 1].score
    {
      score := board[4].score;
    }

    /** The end of a game: goes to the name entry when the score beats the lowest one. */
    method CheckNewHiScore(playerScore: int) returns (enterName: bool)
      requires Valid()
      modifies `newWinner
      ensures enterName <==> playerScore > board[SIZE - 1].score
      ensures newWinner == if enterName then old(newWinner).(score := playerScore) else old(newWinner)
    {
      var lowest := GetLowestHiScore();
      enterName := playerScore > lowest;
      if enterName {
        newWinner := newWinner.(score := playerScore);
      }
    }

    /** ENTER on the name screen; ignored while the name is empty. */
    method EnterName(player: string, date: string) returns (done: bool)
      requires Valid()
      modifies board, `newWinner
      ensures done <==> player != ""
      ensures board[..] == if done then Inserted(old(board[..]), Entry(date, player, old(newWinner.score)))
                           else old(board[..])
    {
      done := player != "";
      if done {
        newWinner := newWinner.(name := player);
        newWinner := newWinner.(date := date);
        UpdateData();
      }
    }

    /** A game that ends with `playerScore`, played by somebody who gives a name when asked; a tie is not entered. */
    method FinishGame(ws: Winner, playerScore: int, player: string, date: string)
      requires Valid() && player != ""
      modifies board, `newWinner
      ensures board[..] == Finish(old(board[..]), Finished(ws, Entry(date, player, playerScore)))
      ensures ScreenAfter(ws, playerScore, old(board[4].score)) != NameScreen ==> newWinner == old(newWinner)
    {
      if ws != Tie {
        var enterName := CheckNewHiScore(playerScore);
        if enterName {
          var _ := EnterName(player, date);
        }
      }
    }

    method SaveData()
      requires Valid()
      modifies `file
      ensures file == BoardText(board[..])
    {
      var text := "";
      for i := 0 to SIZE
        invariant BoardText(board[..]) == text + BoardText(board[i..])
      {
        SaveOneMore(text, board[..], i);
        text := text + (board[i].name + "\n" + PrintInt(board[i].score) + "\n" + board[i].date + "\n\n");
      }
      file := text;
    }

    /** One turn of the loop of retrieveData: three fscanf calls into entry `i`. */
    method RetrieveEntry(i: nat, text: string, name: string, date: string) returns (rest: string)
      requires Valid() && i < SIZE
      modifies board
      ensures var r := ScanEntry(text, old(board[i]), name, date);
              board[..] == old(board[..])[i := r.0] && rest == r.1
    {
      var word := ScanWord(text, name);
      board[i] := board[i].(name := word.0);
      var number := ScanInt(word.1, board[i].score);
      board[i] := board[i].(score := number.0);
      word := ScanWord(number.1, date);
      board[i] := board[i].(date := word.0);
      rest := word.1;
    }

    /** `name` and `date` are the contents of the two local buffers before anything is read. */
    method RetrieveData(name: string, date: string)
      requires Valid()
      modifies board
      ensures board[..] == Load(file, old(board[..]), name, date)
    {
      ghost var was, done := board[..], [];
      var rest, nameBuffer, dateBuffer := file, name, date;
      for i := 0 to SIZE
        invariant |done| == i && board[..] == done + was[i..]
        invariant Load(file, was, name, date) == done + Load(rest, was[i..], nameBuffer, dateBuffer)
      {
        ghost var before, t := board[..], rest;
        rest := RetrieveEntry(i, rest, nameBuffer, dateBuffer);
        LoadStep(was, done, t, nameBuffer, dateBuffer, before, board[..], rest);
        done := done + [board[i]];
        nameBuffer, dateBuffer := board[i].name, board[i].date;
      }
    }

    /** Saving and reading back, whatever was on the board and in the buffers in between. */
    method SaveAndRetrieve(name: string, date: string) returns (same: bool)
      requires Valid()
      modifies board, `file
      ensures (board[..] == old(board[..])) <==> AllWords(old(board[..]))
      ensures same == (board[..] == old(board[..]))
    {
      var was := board[..];
      SaveData();
      RetrieveData(name, date);
      LoadUndoesSave(was, was, name, date);
      same := board[..] == was;
    }
  }

  /** The date of today as text, built from three printed numbers. */
  method GetDate(day: nat, month: nat, year: nat) returns (date: string)
    requires day < 100 && month < 100 && year < 100
    ensures IsWord(date) && |date| <= 10
    ensures date == DateText(day, month, year)
  {
    DateIsWord(day, month, year);
    date := "";
    var d, m, y := PrintNat(day), PrintNat(month), PrintNat(year + 2000);
    for i := 0 to |d|
      invariant date == d[..i]
    {
      date := date + [d[i]];
    }
    date := date + "/";
    for i := 0 to |m|
      invariant date == d + "/" + m[..i]
    {
      date := date + [m[i]];
    }
    date := date + "/";
    for i := 0 to |y|
      invariant date == d + "/" + m + "/" + y[..i]
    {
      date := date + [y[i]];
    }
  }
}
