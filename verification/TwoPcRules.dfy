/**
 What each handler of the two-PC game does, as functions from values to values.
 TwoPcGame.dfy has the handlers themselves, TwoPcRuns.dfy what two PCs do together.
 */
module TwoPcRules {
  import opened Consts

  // Bytes on the serial line.
  const ACK: byte := 0
  const CONNECTED: byte := 2
  const GREEN_REMOTE: byte := 3
  const WHITE_REMOTE: byte := 8
  const IS_VS: byte := 9
  const IS_NOT_VS: byte := 10
  const READY: byte := 11
  const LOSE: byte := 12
  const TIE_REMOTE: byte := 13
  /** The number of `TIE` among the winners, which is what the receiver compares a byte with. */
  const TIE_AS_RECEIVED: byte := 2

  predicate IsButton(data: byte) {
    GREEN_REMOTE <= data <= WHITE_REMOTE
  }

  // ---------------------------------------------------------------- game state

  datatype Game = Game(
    isHost: bool,
    isPlayer1: bool,
    buttons: seq<Click>,
    maxButtonsSize: nat,
    guessed: nat,
    playerScore: nat,
    timeLeft: int,
    isVsRound: bool,
    vsWasPressed: bool,
    gameEnd: bool,
    ws: Winner)

  /** The bytes one event asks the serial port to send, in order: never more than two. */
  type Burst = s: seq<byte> | |s| <= 2

  /** What a handler does: the new game, and the bytes it sends. */
  datatype Effect = Effect(game: Game, bytes: Burst)

  predicate MyTurn(g: Game) {
    g.isHost == g.isPlayer1
  }

  function ResetGame(g: Game, rounds: nat): Game {
    Game(g.isHost, true, [], rounds, 0, 0, -1, true, false, false, g.ws)
  }

  /** The meaning of a button at the current point of the game. */
  datatype Outcome =
    | Complete  // the sequence is full and was repeated: a tie
    | Bonus     // one more button during the VS turn
    | StartVs   // the VS button opens the VS turn
    | Extend    // a new button closes the turn
    | Match     // the next button of the sequence was repeated
    | Mistake

  function Classify(g: Game, click: Click): Outcome {
    if g.guessed < |g.buttons| && !g.vsWasPressed then
      if g.buttons[g.guessed] == click then Match else Mistake
    else if g.guessed == g.maxButtonsSize then Complete
    else if g.isVsRound && g.vsWasPressed then Bonus
    else if g.isVsRound && click == VS_B then StartVs
    else Extend
  }

  /** Repeating the whole sequence sets the score to its length. */
  function Scored(g: Game): Game {
    if g.guessed == |g.buttons| then g.(playerScore := |g.buttons|) else g
  }

  function Lost(g: Game): Effect {
    Effect(g.(ws := Opponent(g.isPlayer1), gameEnd := true), [LOSE])
  }

  /** The turn is handed over; only the host draws the kind of the next round (always a VS round). */
  function ChangePlayer(g: Game): (e: Effect)
    ensures |e.bytes| == 1
  {
    var passed := g.(isPlayer1 := !g.isPlayer1, guessed := 0);
    if g.isHost then Effect(passed.(isVsRound := true, vsWasPressed := false), [IS_VS])
    else Effect(passed, [READY])
  }

  function ButtonByte(click: Click): byte {
    GREEN_REMOTE + click
  }

  /** A click by the player who holds the turn. */
  function LocalClick(g: Game, click: Click): Effect {
    if click == NO_BUTTON then Effect(g, [])
    else
      var longer := Scored(g).(buttons := g.buttons + [click]);
      var b := [ButtonByte(click)];
      match Classify(g, click)
      case Complete => Effect(Scored(g).(ws := Tie, gameEnd := true), [TIE_REMOTE])
      case Bonus => Effect(longer, b)
      case StartVs => Effect(longer.(vsWasPressed := true, timeLeft := VS_INTERVAL), b)
      case Extend => var e := ChangePlayer(longer); Effect(e.game, [ButtonByte(click), e.bytes[0]])
      case Match =>
        Effect(g.(guessed := g.guessed + 1,
                  timeLeft := if g.guessed + 1 == |g.buttons| then -1 else INTERVAL), b)
      case Mistake => Lost(g)
  }

  /** A click made on the other PC and received from the line. */
  function RemoteClick(g: Game, click: Click): Game {
    var longer := Scored(g).(buttons := g.buttons + [click]);
    match Classify(g, click)
    case Complete => Scored(g).(ws := Tie, gameEnd := true)
    case Bonus => longer
    case StartVs => longer.(vsWasPressed := true)
    case Extend => longer
    case Match => g.(guessed := g.guessed + 1)
    case Mistake => g
  }

  function ButtonsHandler(g: Game, click: Click): Effect {
    if MyTurn(g) then LocalClick(g, click) else Effect(RemoteClick(g, click), [])
  }

  function TurnReceived(g: Game, vsRound: bool): Game {
    g.(isVsRound := vsRound, vsWasPressed := false, guessed := 0,
       isPlayer1 := !g.isPlayer1, timeLeft := INTERVAL)
  }

  /** A byte received while the game runs. */
  function PlayGame(g: Game, data: byte): Effect {
    if IsButton(data) then ButtonsHandler(g, data - GREEN_REMOTE)
    else if data == IS_VS || data == READY then Effect(TurnReceived(g, true), [])
    else if data == IS_NOT_VS then Effect(TurnReceived(g, false), [])
    else if data == LOSE then Effect(g.(ws := Opponent(!g.isHost), gameEnd := true), [])
    else if data == TIE_AS_RECEIVED then Effect(g.(ws := Tie, gameEnd := true), [])
    else Effect(g, [])
  }

  /** One tick of the real time clock. */
  function Tick(g: Game): Effect {
    if !MyTurn(g) || g.gameEnd || g.timeLeft < 0 then Effect(g, [])
    else if g.timeLeft > 0 then Effect(g.(timeLeft := g.timeLeft - 1), [])
    else if !g.vsWasPressed then Lost(g)
    else if g.isVsRound then ChangePlayer(g)
    else Effect(g, [])
  }

  // ---------------------------------------------------------------- serial port

  /** The transmitter holding register and the one-byte software queue behind it. */
  datatype Uart = Uart(thr: Option<byte>, hasData: bool, data: byte)

  function WriteByte(u: Uart, data: byte): Uart {
    if u.thr.None? then u.(thr := Some(data)) else u
  }

  function Send(u: Uart, data: byte): Uart {
    if u.thr.None? then WriteByte(u, data) else u.(hasData := true, data := data)
  }

  function SendAll(u: Uart, bytes: Burst): Uart {
    if |bytes| == 0 then u
    else if |bytes| == 1 then Send(u, bytes[0])
    else Send(Send(u, bytes[0]), bytes[1])
  }

  function UartReady(u: Uart): Uart {
    WriteByte(u.(hasData := false), u.data)
  }

  // ---------------------------------------------------------------- one PC

  datatype Peer = Peer(
    game: Game,
    screen: Screen,
    uart: Uart,
    gameStarted: bool,
    receivedNoBytes: nat,
    receivedByte: byte,
    numRoundSentBytes: nat)

  function Emit(p: Peer, e: Effect): Peer {
    p.(game := e.game, uart := SendAll(p.uart, e.bytes))
  }

  function HostMpGame(p: Peer, rounds: nat): Peer {
    p.(game := ResetGame(p.game, rounds).(isHost := true),
       gameStarted := false, uart := p.uart.(hasData := false))
  }

  function ConnectMpGame(p: Peer): Peer {
    p.(game := p.game.(isPlayer1 := false, isHost := false),
       gameStarted := false, uart := WriteByte(p.uart, CONNECTED).(hasData := false))
  }

  /** Byte number `k` of the size the host announces: the size is cast to 8 bits first. */
  function SizeByte(rounds: nat, k: nat): byte {
    if k == 0 then rounds % 256 else 0
  }

  /** An interrupt before the game has started; also says which bytes were given to the port. */
  function StartGame(p: Peer, data: byte, emptyThr: bool): (Peer, Burst) {
    if p.game.isHost then
      if data == CONNECTED && p.numRoundSentBytes < 2 && p.uart.thr.None? then
        var b := SizeByte(p.game.maxButtonsSize, p.numRoundSentBytes);
        (p.(uart := WriteByte(p.uart, b), numRoundSentBytes := p.numRoundSentBytes + 1), [b])
      else if data == ACK then (p.(gameStarted := true), [])
      else (p, [])
    else if emptyThr then
      if p.receivedNoBytes == 2 then (p.(uart := WriteByte(p.uart, ACK), gameStarted := true), [ACK])
      else (p, [])
    else if p.receivedNoBytes == 0 then (p.(receivedByte := data, receivedNoBytes := 1), [])
    else
      var q := p.(game := ResetGame(p.game, data * 256 + p.receivedByte),
                  receivedNoBytes := p.receivedNoBytes + 1);
      if p.uart.thr.None? then (q.(uart := WriteByte(p.uart, ACK), gameStarted := true), [ACK])
      else (q, [])
  }

  /** "Data received" interrupt. */
  function Receive(p: Peer, data: byte): (Peer, Burst) {
    if !p.gameStarted then StartGame(p, data, false)
    else var e := PlayGame(p.game, data); (Emit(p, e), e.bytes)
  }

  /** "Transmitter empty" interrupt. A queued byte moves on, it is not a new send. */
  function TransmitterEmpty(p: Peer): (Peer, Burst) {
    if !p.gameStarted then StartGame(p, CONNECTED, true)
    else if p.uart.hasData then (p.(uart := UartReady(p.uart)), [])
    else (p, [])
  }

  predicate AcceptsClick(p: Peer) {
    p.gameStarted && !p.game.gameEnd && MyTurn(p.game)
  }

  function MouseClick(p: Peer, click: Click): (Peer, Burst) {
    if AcceptsClick(p) then var e := LocalClick(p.game, click); (Emit(p, e), e.bytes) else (p, [])
  }

  /** A PC whose game has ended leaves the screen; `lowest` is the fifth score of its leaderboard. */
  function LeaveIfEnded(p: Peer, lowest: int): Peer {
    if p.game.gameEnd then p.(screen := ScreenAfter(p.game.ws, p.game.playerScore, lowest)) else p
  }

  /** The tick that ends a game returns at once, the next one leaves the screen. */
  function RtcTick(p: Peer, lowest: int): (Peer, Burst) {
    if p.game.gameEnd then (LeaveIfEnded(p, lowest), [])
    else var e := Tick(p.game); (Emit(p, e), e.bytes)
  }

  datatype Event =
    | Mouse(click: Click)
    | Rtc
    | Enter
    | Received(data: byte)
    | ThrEmpty

  /** The dispatcher: away from the game's screen every event is dropped, a received byte included. */
  function Handle(p: Peer, event: Event, lowest: int): (Peer, Burst) {
    if p.screen != PlayScreen then (p, [])
    else
      match event
      case Mouse(click) => MouseClick(p, click)
      case Rtc => RtcTick(p, lowest)
      case Enter => (LeaveIfEnded(p, lowest), [])
      case Received(data) => Receive(p, data)
      case ThrEmpty => TransmitterEmpty(p)
  }
}
