/**
 The variables and handlers of the two-PC game (proj/mp_game.c), with the port's
 holding register. Each handler is proved to do what TwoPcRules says it does.
 */
module TwoPcGame {
  import opened Consts
  import opened TwoPcRules
  import Leaderboard

  class MpGame {
    var screen: Screen
    var isHost: bool
    var isPlayer1: bool
    var buttons: seq<Click>
    var maxButtonsSize: nat
    var guessed: nat
    var playerScore: nat
    var timeLeftForClick: int
    var isVsRound: bool
    var vsWasPressed: bool
    var gameEnd: bool
    var ws: Winner
    var gameStarted: bool
    // the port's register and the queue
    var thr: Option<byte>
    var uartHasDataToSend: bool
    var uartData: byte
    // the static counters of start_game
    var receivedNoBytes: nat
    var receivedByte: byte
    var numRoundSentBytes: nat

    ghost function Board(): Game
      reads this
    {
      Game(isHost, isPlayer1, buttons, maxButtonsSize, guessed, playerScore,
           timeLeftForClick, isVsRound, vsWasPressed, gameEnd, ws)
    }

    ghost function Port(): Uart
      reads this
    {
      Uart(thr, uartHasDataToSend, uartData)
    }

    ghost function State(): Peer
      reads this
    {
      Peer(Board(), screen, Port(), gameStarted, receivedNoBytes, receivedByte, numRoundSentBytes)
    }

    /** The index of the next guess is within the sequence or just after it. */
    ghost predicate Valid()
      reads `guessed, `buttons
    {
      guessed <= |buttons|
    }

    predicate CheckThrEmpty()
      reads `thr
    {
      thr.None?
    }

    /** Writes to the register when it is empty, refuses otherwise. */
    method SerialWriteByte(data: byte) returns (written: bool)
      modifies `thr
      ensures Port() == WriteByte(old(Port()), data)
      ensures written <==> old(thr.None?)
    {
      written := CheckThrEmpty();
      if written {
        thr := Some(data);
      }
    }

    method UartSetQueue(data: byte)
      modifies `uartHasDataToSend, `uartData
      ensures uartHasDataToSend && uartData == data
    {
      uartHasDataToSend := true;
      uartData := data;
    }

    method UartReady()
      modifies `uartHasDataToSend, `thr
      ensures Port() == TwoPcRules.UartReady(old(Port()))
    {
      uartHasDataToSend := false;
      var _ := SerialWriteByte(uartData);
    }

    /** The "write or queue" choice common to all senders. */
    method SendOrQueue(data: byte)
      modifies `thr, `uartHasDataToSend, `uartData
      ensures Port() == Send(old(Port()), data)
    {
      if CheckThrEmpty() {
        var _ := SerialWriteByte(data);
      } else {
        UartSetQueue(data);
      }
    }

    method MpSendWinner()
      modifies `thr, `uartHasDataToSend, `uartData
      ensures Port() == Send(old(Port()), if ws == Tie then TIE_REMOTE else LOSE)
    {
      if ws == Tie {
        SendOrQueue(TIE_REMOTE);
      } else {
        SendOrQueue(LOSE);
      }
    }

    method MpSendButton(click: Click)
      modifies `thr, `uartHasDataToSend, `uartData
      ensures Port() == Send(old(Port()), ButtonByte(click))
    {
      SendOrQueue(GREEN_REMOTE + click);
    }

    method MpAddButton(click: Click)
      modifies `buttons
      ensures buttons == old(buttons) + [click]
    {
      buttons := buttons + [click];
    }

    method MpIsVsRound()
      modifies `isVsRound, `vsWasPressed
      ensures isVsRound && !vsWasPressed
    {
      isVsRound := true;
      vsWasPressed := false;
    }

    method MpGetWinner()
      modifies `ws
      ensures ws == Opponent(isPlayer1)
    {
      if isPlayer1 {
        ws := Winner2;
      } else {
        ws := Winner1;
      }
    }

    method MpEndGame()
      modifies `gameEnd
      ensures gameEnd
    {
      gameEnd := true;
    }

    method MpChangePlayer()
      requires Valid()
      modifies `guessed, `isPlayer1, `isVsRound, `vsWasPressed, `thr, `uartHasDataToSend, `uartData
      ensures Valid() && Board() == ChangePlayer(old(Board())).game
      ensures Port() == SendAll(old(Port()), ChangePlayer(old(Board())).bytes)
    {
      isPlayer1 := !isPlayer1;
      guessed := 0;
      if isHost {
        MpIsVsRound();
        SendOrQueue(if isVsRound then IS_VS else IS_NOT_VS);
      } else {
        SendOrQueue(READY);
      }
    }

    /** The clicks that lengthen the sequence. */
    method MpClickLonger(click: Click)
      requires Valid() && click != NO_BUTTON && Classify(Board(), click) in {Bonus, StartVs, Extend}
      requires guessed == |buttons| ==> playerScore == |buttons|
      modifies `buttons, `guessed, `isPlayer1, `isVsRound, `vsWasPressed, `timeLeftForClick,
               `thr, `uartHasDataToSend, `uartData
      ensures Valid() && Board() == LocalClick(old(Board()), click).game
      ensures Port() == SendAll(old(Port()), LocalClick(old(Board()), click).bytes)
    {
      if isVsRound {
        if vsWasPressed {
          MpAddButton(click);
          MpSendButton(click);
        } else if click == VS_B {
          vsWasPressed := true;
          MpAddButton(click);
          MpSendButton(click);
          timeLeftForClick := VS_INTERVAL;
        } else {
          MpAddButton(click);
          MpSendButton(click);
          MpChangePlayer();
        }
      } else {
        MpAddButton(click);
        MpSendButton(click);
        MpChangePlayer();
      }
    }

    /** First half of mp_click_button: the sequence was repeated, or this is the VS turn. */
    method MpClickNew(click: Click)
      requires Valid() && click != NO_BUTTON && (guessed == |buttons| || vsWasPressed)
      modifies `buttons, `guessed, `playerScore, `isPlayer1, `isVsRound, `vsWasPressed,
               `timeLeftForClick, `gameEnd, `ws,
               `thr, `uartHasDataToSend, `uartData
      ensures Valid() && Board() == LocalClick(old(Board()), click).game
      ensures Port() == SendAll(old(Port()), LocalClick(old(Board()), click).bytes)
    {
      if guessed == |buttons| {
        playerScore := |buttons|;
      }
      if guessed == maxButtonsSize {
        ws := Tie;
        MpEndGame();
        MpSendWinner();
      } else {
        MpClickLonger(click);
      }
    }

    /** Second half: is it the right button? */
    method MpClickGuess(click: Click)
      requires Valid() && click != NO_BUTTON && guessed != |buttons| && !vsWasPressed
      modifies `buttons, `guessed, `playerScore, `isPlayer1, `isVsRound, `vsWasPressed,
               `timeLeftForClick, `gameEnd, `ws,
               `thr, `uartHasDataToSend, `uartData
      ensures Valid() && Board() == LocalClick(old(Board()), click).game
      ensures Port() == SendAll(old(Port()), LocalClick(old(Board()), click).bytes)
    {
      if buttons[guessed] == click {
        MpSendButton(click);
        guessed := guessed + 1;
        if guessed == |buttons| {
          timeLeftForClick := -1;
        } else {
          timeLeftForClick := INTERVAL;
        }
      } else {
        MpGetWinner();
        MpSendWinner();
        MpEndGame();
      }
    }

    method MpClickButton(click: Click)
      requires Valid()
      modifies `buttons, `guessed, `playerScore, `isPlayer1, `isVsRound, `vsWasPressed,
               `timeLeftForClick, `gameEnd, `ws,
               `thr, `uartHasDataToSend, `uartData
      ensures Valid() && Board() == LocalClick(old(Board()), click).game
      ensures Port() == SendAll(old(Port()), LocalClick(old(Board()), click).bytes)
    {
      if click == NO_BUTTON {
        return;
      }
      if guessed == |buttons| || vsWasPressed {
        MpClickNew(click);
      } else {
        MpClickGuess(click);
      }
    }

    method MpRemoteClickButton(click: Click)
      requires Valid()
      modifies `buttons, `guessed, `playerScore, `vsWasPressed, `gameEnd, `ws
      ensures Valid() && Board() == RemoteClick(old(Board()), click)
    {
      if guessed == |buttons| || vsWasPressed {
        if guessed == |buttons| {
          playerScore := |buttons|;
        }
        if guessed == maxButtonsSize {
          ws := Tie;
          MpEndGame();
        } else if isVsRound {
          if vsWasPressed {
            MpAddButton(click);
          } else if click == VS_B {
            vsWasPressed := true;
            MpAddButton(click);
          } else {
            MpAddButton(click);
          }
        } else {
          MpAddButton(click);
        }
      } else if buttons[guessed] == click {
        guessed := guessed + 1;
      }
    }

    method MpButtonsHandler(click: Click)
      requires Valid()
      modifies `buttons, `guessed, `playerScore, `isPlayer1, `isVsRound, `vsWasPressed,
               `timeLeftForClick, `gameEnd, `ws,
               `thr, `uartHasDataToSend, `uartData
      ensures Valid() && Board() == ButtonsHandler(old(Board()), click).game
      ensures Port() == SendAll(old(Port()), ButtonsHandler(old(Board()), click).bytes)
    {
      if isHost == isPlayer1 {
        MpClickButton(click);
      } else {
        MpRemoteClickButton(click);
      }
    }

    /** The byte that hands over the turn. */
    method TakeTurn(vsRound: bool)
      requires Valid()
      modifies `guessed, `isPlayer1, `isVsRound, `vsWasPressed, `timeLeftForClick
      ensures Valid() && Board() == TurnReceived(old(Board()), vsRound)
    {
      isVsRound := vsRound;
      vsWasPressed := false;
      guessed := 0;
      isPlayer1 := !isPlayer1;
      timeLeftForClick := INTERVAL;
    }

    /** The byte that announces the loss of the other player. */
    method HearLoss()
      requires Valid()
      modifies `gameEnd, `ws
      ensures Valid() && Board() == old(Board()).(ws := Opponent(!old(isHost)), gameEnd := true)
    {
      if isHost {
        ws := Winner1;
      } else {
        ws := Winner2;
      }
      MpEndGame();
    }

    method PlayGame(data: byte)
      requires Valid()
      modifies `buttons, `guessed, `playerScore, `isPlayer1, `isVsRound, `vsWasPressed,
               `timeLeftForClick, `gameEnd, `ws,
               `thr, `uartHasDataToSend, `uartData
      ensures Valid() && Board() == TwoPcRules.PlayGame(old(Board()), data).game
      ensures Port() == SendAll(old(Port()), TwoPcRules.PlayGame(old(Board()), data).bytes)
    {
      if 3 <= data <= 8 {
        MpButtonsHandler(data - GREEN_REMOTE);
      } else if data == IS_VS {
        TakeTurn(true);
      } else if data == IS_NOT_VS {
        TakeTurn(false);
      } else if data == READY {
        MpIsVsRound();
        TakeTurn(isVsRound);
      } else if data == LOSE {
        HearLoss();
      } else if data == TIE_AS_RECEIVED {
        ws := Tie;
        MpEndGame();
      }
    }

    method MpResetGame(rounds: nat)
      requires Valid()
      modifies `maxButtonsSize, `buttons, `guessed, `playerScore, `isPlayer1, `isVsRound, `vsWasPressed,
               `timeLeftForClick, `gameEnd
      ensures Valid() && Board() == ResetGame(old(Board()), rounds)
    {
      maxButtonsSize := rounds;
      buttons := [];
      playerScore := 0;
      guessed := 0;
      isPlayer1 := true;
      gameEnd := false;
      timeLeftForClick := -1;
      MpIsVsRound();
      vsWasPressed := false;
    }

    method HostMpGame(rounds: nat)
      requires Valid()
      modifies this
      ensures Valid() && State() == TwoPcRules.HostMpGame(old(State()), rounds)
    {
      MpResetGame(rounds);
      isHost := true;
      isPlayer1 := true;
      gameStarted := false;
      uartHasDataToSend := false;
    }

    method ConnectMpGame()
      requires Valid()
      modifies this
      ensures Valid() && State() == TwoPcRules.ConnectMpGame(old(State()))
    {
      isPlayer1 := false;
      isHost := false;
      var _ := SerialWriteByte(CONNECTED);
      uartHasDataToSend := false;
      gameStarted := false;
    }

    method StartGame(data: byte, emptyThr: bool)
      requires Valid()
      modifies this
      ensures Valid() && State() == TwoPcRules.StartGame(old(State()), data, emptyThr).0
    {
      if isHost {
        if data == CONNECTED && numRoundSentBytes < 2 {
          if CheckThrEmpty() {
            var size8 := maxButtonsSize % 256;  // the cast to 8 bits
            var shifted := if numRoundSentBytes == 0 then size8 else size8 / 256;
            var _ := SerialWriteByte(shifted);
            numRoundSentBytes := numRoundSentBytes + 1;
          }
        }
        if data == ACK {
          gameStarted := true;
        }
      } else if emptyThr {
        if receivedNoBytes == 2 {
          var _ := SerialWriteByte(ACK);
          gameStarted := true;
        }
      } else {
        if receivedNoBytes == 0 {
          receivedByte := data;
        } else {
          MpResetGame(data * 256 + receivedByte);
          if CheckThrEmpty() {
            var _ := SerialWriteByte(ACK);
            gameStarted := true;
          }
        }
        receivedNoBytes := receivedNoBytes + 1;
      }
    }

    /** The two kinds of serial interrupt that have an effect. */
    method MpGameUpdateStatusUart(data: byte, transmitterEmpty: bool)
      requires Valid()
      modifies this
      ensures Valid()
      ensures State() == if transmitterEmpty then TransmitterEmpty(old(State())).0
                         else Receive(old(State()), data).0
    {
      if !transmitterEmpty {
        if !gameStarted {
          StartGame(data, false);
          return;
        }
        PlayGame(data);
      } else {
        if !gameStarted {
          StartGame(CONNECTED, true);
          return;
        }
        if uartHasDataToSend {
          UartReady();
        }
      }
    }

    method MpGameUpdateStatusMouse(click: Click)
      requires Valid()
      modifies this
      ensures Valid() && State() == MouseClick(old(State()), click).0
    {
      if gameEnd {
        return;
      }
      if gameStarted {
        if isHost == isPlayer1 {
          MpButtonsHandler(click);
        }
      }
    }

    /** mp_checkNewHiScore, or the leaderboard at once after a tie. */
    method LeaveScreen(scores: Leaderboard.Leaderboard)
      requires Valid() && scores.Valid()
      modifies `screen, scores`newWinner
      ensures screen == ScreenAfter(ws, playerScore, scores.board[4].score)
      ensures scores.newWinner == if screen == NameScreen then old(scores.newWinner).(score := playerScore)
                                  else old(scores.newWinner)
    {
      if ws == Tie {
        screen := LeaderboardScreen;
      } else {
        var enterName := scores.CheckNewHiScore(playerScore);
        if enterName {
          screen := NameScreen;
        } else {
          screen := LeaderboardScreen;
        }
      }
    }

    /** The player logic of a tick; `lost` says that the handler returns at once. */
    method MpPlayerTick() returns (lost: bool)
      requires Valid() && isHost == isPlayer1 && !gameEnd
      modifies `guessed, `isPlayer1, `isVsRound, `vsWasPressed, `timeLeftForClick, `gameEnd, `ws,
               `thr, `uartHasDataToSend, `uartData
      ensures Valid() && Board() == Tick(old(Board())).game
      ensures Port() == SendAll(old(Port()), Tick(old(Board())).bytes)
      ensures lost <==> gameEnd
    {
      lost := false;
      if timeLeftForClick == 0 && !vsWasPressed {
        MpGetWinner();
        MpSendWinner();
        MpEndGame();
        lost := true;
      } else if timeLeftForClick == 0 && isVsRound && vsWasPressed {
        MpChangePlayer();
      } else if timeLeftForClick > 0 {
        timeLeftForClick := timeLeftForClick - 1;
      }
    }

    method MpGameUpdateStatusRtc(scores: Leaderboard.Leaderboard)
      requires Valid() && scores.Valid()
      modifies this, scores`newWinner
      ensures Valid() && State() == RtcTick(old(State()), scores.board[4].score).0
      ensures scores.newWinner == if old(gameEnd) && screen == NameScreen
                                  then old(scores.newWinner).(score := playerScore) else old(scores.newWinner)
    {
      if isHost == isPlayer1 && !gameEnd {
        var lost := MpPlayerTick();
        if lost {
          return;
        }
      }
      if gameEnd {
        LeaveScreen(scores);
      }
    }

    method MpGameUpdateStatusKey(isEnter: bool, scores: Leaderboard.Leaderboard)
      requires Valid() && scores.Valid()
      modifies `screen, scores`newWinner
      ensures State() == if isEnter then LeaveIfEnded(old(State()), scores.board[4].score) else old(State())
      ensures scores.newWinner == if isEnter && gameEnd && screen == NameScreen
                                  then old(scores.newWinner).(score := playerScore) else old(scores.newWinner)
    {
      if gameEnd && isEnter {
        LeaveScreen(scores);
      }
    }

    /** One event of the main loop. */
    method EventHandler(event: Event, scores: Leaderboard.Leaderboard)
      requires Valid() && scores.Valid()
      modifies this, scores`newWinner
      ensures Valid() && State() == Handle(old(State()), event, scores.board[4].score).0
      ensures scores.newWinner == if old(screen) == PlayScreen && screen == NameScreen
                                  then old(scores.newWinner).(score := playerScore) else old(scores.newWinner)
    {
      if screen != PlayScreen {
        return;
      }
      match event
      case Mouse(click) => MpGameUpdateStatusMouse(click);
      case Rtc => MpGameUpdateStatusRtc(scores);
      case Enter => MpGameUpdateStatusKey(true, scores);
      case Received(data) => MpGameUpdateStatusUart(data, false);
      case ThrEmpty => MpGameUpdateStatusUart(0, true);
    }
  }
}
