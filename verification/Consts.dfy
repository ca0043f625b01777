/** Constants and enumerations shared by the one-PC and the two-PC game. */
module Consts {
  datatype Option<+T> = None | Some(value: T)

  type byte = b: int | 0 <= b < 256

  type uint16 = n: int | 0 <= n < 65536

  /** A mouse click: the five colours are 0..4, then the VS button, then "no button at all". */
  type Click = c: int | 0 <= c <= 6

  const VS_B: Click := 5
  const NO_BUTTON: Click := 6

  const INTERVAL := 4     // 3 seconds and one tick of tolerance
  const VS_INTERVAL := 6  // 5 seconds and one tick of tolerance

  datatype Winner = Winner1 | Winner2 | Tie

  /** The winner when the given player makes a mistake or runs out of time. */
  function Opponent(isPlayer1: bool): Winner {
    if isPlayer1 then Winner2 else Winner1
  }

  /** The screen a PC is on; events reach a game only while its screen is shown. */
  datatype Screen = PlayScreen | NameScreen | LeaderboardScreen

  /** The screen after a game: the name is asked for if nobody tied and the fifth score is beaten. */
  function ScreenAfter(ws: Winner, score: int, lowest: int): Screen {
    if ws != Tie && score > lowest then NameScreen else LeaderboardScreen
  }

  /** What an interrupt of the keyboard controller brings: a byte, or an error or no byte at all. */
  datatype Read = Failed | Got(data: byte)

  predicate IsDigit(c: char) {
    '0' <= c <= '9'
  }

  function Pow10(n: nat): nat {
    if n == 0 then 1 else 10 * Pow10(n - 1)
  }
}
