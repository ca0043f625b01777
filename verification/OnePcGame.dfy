/** The variables and handlers of the one-PC game (proj/game.c). */
module OnePcGame {
  import opened Consts
  import Rules = OnePcRules
  import Leaderboard

  class Game {
    var isPlayer1: bool
    var buttons: seq<Click>
    var maxButtonsSize: nat
    var guessed: nat
    var playerScore: nat
    var timeLeftForClick: int
    var isVsRound: bool
    var vsWasPressed: bool
    var gameEnd: bool
    var ws: Winner
    var screen: Screen

    ghost predicate Valid()
      reads `guessed, `buttons
    {
      guessed <= |buttons|
    }

    ghost function State(): Rules.Game
      reads this
    {
      Rules.Game(isPlayer1, buttons, maxButtonsSize, guessed, playerScore,
                 timeLeftForClick, isVsRound, vsWasPressed, gameEnd, ws, screen)
    }

    /** Draws the kind of the next round; `drawn` stands for the random number. */
    method IsVsRound(drawn: bool)
      modifies `isVsRound, `vsWasPressed
      ensures isVsRound == drawn && !vsWasPressed
    {
      vsWasPressed := false;
      if drawn {
        isVsRound := true;
      } else {
        isVsRound := false;
      }
    }

    method GetWinner()
      modifies `ws
      ensures ws == Opponent(isPlayer1)
    {
      if isPlayer1 {
        ws := Winner2;
      } else {
        ws := Winner1;
      }
    }

    method EndGame()
      modifies `gameEnd
      ensures gameEnd
    {
      gameEnd := true;
    }

    method ResetGame(rounds: nat, drawn: bool)
      modifies this
      ensures Valid() && State() == Rules.Game(true, [], rounds, 0, 0, -1, drawn, false, false, old(ws), old(screen))
    {
      maxButtonsSize := rounds;
      buttons := [];
      playerScore := 0;
      guessed := 0;
      isPlayer1 := true;
      gameEnd := false;
      timeLeftForClick := -1;
      IsVsRound(drawn);
      vsWasPressed := false;
    }

    method ClickButton(click: Click, drawn: bool)
      requires Valid()
      modifies this
      ensures Valid() && State() == Rules.ClickButton(old(State()), click, drawn)
    {
      if click == NO_BUTTON {
        return;
      }
      if guessed == |buttons| || vsWasPressed {
        if guessed == |buttons| {
          playerScore := |buttons|;
        }
        if guessed == maxButtonsSize {
          ws := Tie;
          EndGame();
        } else if isVsRound && click == VS_B && !vsWasPressed {
          vsWasPressed := true;
          buttons := buttons + [click];
          timeLeftForClick := VS_INTERVAL;
        } else {
          buttons := buttons + [click];
          guessed := 0;
          if !vsWasPressed {
            isPlayer1 := !isPlayer1;
            timeLeftForClick := INTERVAL;
            IsVsRound(drawn);
          }
        }
      } else if buttons[guessed] == click {
        guessed := guessed + 1;
        if guessed == |buttons| {
          timeLeftForClick := -1;
        } else {
          timeLeftForClick := INTERVAL;
        }
      } else {
        GetWinner();
        EndGame();
      }
    }

    /** A mouse packet whose click, if any, is `click`. */
    method GameUpdateStatusMouse(click: Click, drawn: bool)
      requires Valid()
      modifies this
      ensures Valid()
      ensures State() == if old(gameEnd) then old(State()) else Rules.ClickButton(old(State()), click, drawn)
    {
      if gameEnd {
        return;
      }
      ClickButton(click, drawn);
    }

    /** checkNewHiScore, or the leaderboard at once after a tie. */
    method LeaveScreen(scores: Leaderboard.Leaderboard)
      requires scores.Valid()
      modifies `screen, scores`newWinner
      ensures screen == ScreenAfter(ws, playerScore, scores.board[4].score)
      ensures scores.newWinner == if screen == NameScreen then old(scores.newWinner).(score := playerScore)
                                  else old(scores.newWinner)
    {
      if ws == Tie {
        screen := LeaderboardScreen;
      } else {
        var enterName := scores.CheckNewHiScore(playerScore);
        if enterName {
          screen := NameScreen;
        } else {
          screen := LeaderboardScreen;
        }
      }
    }

    method GameUpdateStatusRtc(scores: Leaderboard.Leaderboard, drawn: bool)
      requires Valid() && scores.Valid()
      modifies this, scores`newWinner
      ensures Valid() && State() == Rules.Tick(old(State()), drawn, scores.board[4].score)
      ensures scores.newWinner == if gameEnd && screen == NameScreen
                                  then old(scores.newWinner).(score := playerScore) else old(scores.newWinner)
    {
      if timeLeftForClick == 0 && !vsWasPressed {
        GetWinner();
        EndGame();
      } else if timeLeftForClick == 0 && isVsRound && vsWasPressed {
        isPlayer1 := !isPlayer1;
        timeLeftForClick := INTERVAL;
        IsVsRound(drawn);
      } else if timeLeftForClick > 0 {
        timeLeftForClick := timeLeftForClick - 1;
      }
      if gameEnd {
        LeaveScreen(scores);
      }
    }

    method GameUpdateStatusKey(isEnter: bool, scores: Leaderboard.Leaderboard)
      requires Valid() && scores.Valid()
      modifies `screen, scores`newWinner
      ensures State() == if isEnter then Rules.LeaveIfEnded(old(State()), scores.board[4].score) else old(State())
      ensures scores.newWinner == if isEnter && gameEnd && screen == NameScreen
                                  then old(scores.newWinner).(score := playerScore) else old(scores.newWinner)
    {
      if gameEnd && isEnter {
        LeaveScreen(scores);
      }
    }
  }
}
