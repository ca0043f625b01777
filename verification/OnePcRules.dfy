/** What each handler of the one-PC game does, as functions. OnePcGame.dfy has the handlers. */
module OnePcRules {
  import opened Consts

  datatype Game = Game(
    isPlayer1: bool,
    buttons: seq<Click>,
    maxButtonsSize: nat,
    guessed: nat,
    playerScore: nat,
    timeLeft: int,
    isVsRound: bool,
    vsWasPressed: bool,
    gameEnd: bool,
    ws: Winner,
    screen: Screen)

  datatype Outcome = Complete | Bonus | StartVs | Extend | Match | Mistake

  function Classify(g: Game, click: Click): Outcome {
    if g.guessed < |g.buttons| && !g.vsWasPressed then
      if g.buttons[g.guessed] == click then Match else Mistake
    else if g.guessed == g.maxButtonsSize then Complete
    else if g.vsWasPressed then Bonus
    else if g.isVsRound && click == VS_B then StartVs
    else Extend
  }

  function Scored(g: Game): Game {
    if g.guessed == |g.buttons| then g.(playerScore := |g.buttons|) else g
  }

  function Lost(g: Game): Game {
    g.(ws := Opponent(g.isPlayer1), gameEnd := true)
  }

  /** The other player's turn, with a newly drawn round and a running timer. */
  function Pass(g: Game, drawn: bool): Game {
    g.(isPlayer1 := !g.isPlayer1, isVsRound := drawn, vsWasPressed := false, timeLeft := INTERVAL)
  }

  function ClickButton(g: Game, click: Click, drawn: bool): Game {
    if click == NO_BUTTON then g
    else
      var longer := Scored(g).(buttons := g.buttons + [click]);
      match Classify(g, click)
      case Complete => Scored(g).(ws := Tie, gameEnd := true)
      case StartVs => longer.(vsWasPressed := true, timeLeft := VS_INTERVAL)
      case Bonus => longer.(guessed := 0)
      case Extend => Pass(longer.(guessed := 0), drawn)
      case Match =>
        g.(guessed := g.guessed + 1,
           timeLeft := if g.guessed + 1 == |g.buttons| then -1 else INTERVAL)
      case Mistake => Lost(g)
  }

  /** A game that has ended leaves the screen; `lowest` is the fifth score of the leaderboard. */
  function LeaveIfEnded(g: Game, lowest: int): Game {
    if g.gameEnd then g.(screen := ScreenAfter(g.ws, g.playerScore, lowest)) else g
  }

  /** The player logic of a tick. It is not stopped by the end of the game. */
  function PlayerTick(g: Game, drawn: bool): Game {
    if g.timeLeft > 0 then g.(timeLeft := g.timeLeft - 1)
    else if g.timeLeft < 0 then g
    else if !g.vsWasPressed then Lost(g)
    else if g.isVsRound then Pass(g, drawn)
    else g
  }

  function Tick(g: Game, drawn: bool, lowest: int): Game {
    LeaveIfEnded(PlayerTick(g, drawn), lowest)
  }
}
