/** What single clicks and waiting do on two PCs, in plain terms: which click is right, and for how long one may wait. */
module TwoPcEvents {
  import opened Consts
  import opened TwoPcRules
  import opened TwoPcRuns
  import Ranking

  // ---------------------------------------------------------------- clicks

  /** The player has still to repeat button number `guessed`. */
  predicate MustRepeat(g: Game) {
    g.guessed < |g.buttons| && !g.vsWasPressed
  }

  /** The right button brings both replicas on and restarts the clock; any other is a loss of which the other PC is told. */
  lemma RepeatingClick(g: Game, c: Click)
    requires MustRepeat(g) && c != NO_BUTTON
    ensures LocalClick(g, c)
            == if c != g.buttons[g.guessed]
               then Effect(g.(gameEnd := true, ws := if g.isPlayer1 then Winner2 else Winner1), [12])
               else if g.guessed + 1 == |g.buttons| then Effect(g.(guessed := |g.buttons|, timeLeft := -1), [3 + c])
               else Effect(g.(guessed := g.guessed + 1, timeLeft := 4), [3 + c])
    ensures RemoteClick(g, c) == if c == g.buttons[g.guessed] then g.(guessed := g.guessed + 1) else g
  {
  }

  /** A click when nothing is left to repeat: a tie, the start of a VS turn, or the end of the turn. */
  lemma ClosingClick(g: Game, c: Click)
    requires g.guessed == |g.buttons| && !g.vsWasPressed && c != NO_BUTTON
    ensures var scored, b := g.(playerScore := |g.buttons|), g.buttons + [c];
            && LocalClick(g, c)
               == (if |g.buttons| == g.maxButtonsSize then Effect(scored.(gameEnd := true, ws := Tie), [13])
                   else if g.isVsRound && c == 5
                   then Effect(scored.(buttons := b, vsWasPressed := true, timeLeft := 6), [8])
                   else if g.isHost
                   then Effect(scored.(buttons := b, guessed := 0, isPlayer1 := !g.isPlayer1, isVsRound := true), [3 + c, 9])
                   else Effect(scored.(buttons := b, guessed := 0, isPlayer1 := !g.isPlayer1), [3 + c, 11]))
            && RemoteClick(g, c)
               == (if |g.buttons| == g.maxButtonsSize then scored.(gameEnd := true, ws := Tie)
                   else if g.isVsRound && c == 5 then scored.(buttons := b, vsWasPressed := true)
                   else scored.(buttons := b))
  {
  }

  /** A click in a VS turn adds a button on both PCs, and nothing else. */
  lemma BonusClick(g: Game, c: Click)
    requires g.vsWasPressed && g.isVsRound && g.guessed != g.maxButtonsSize && c != NO_BUTTON
    ensures var g' := g.(buttons := g.buttons + [c],
                         playerScore := if g.guessed == |g.buttons| then |g.buttons| else g.playerScore);
            LocalClick(g, c) == Effect(g', [3 + c]) && RemoteClick(g, c) == g'
  {
  }

  lemma NoClick(g: Game)
    ensures LocalClick(g, NO_BUTTON) == Effect(g, [])
  {
  }

  /** Every byte that is not a button. Numbers 2 and 10 are never sent. */
  lemma OtherBytes(g: Game, data: byte)
    requires !(3 <= data <= 8)
    ensures PlayGame(g, data)
            == Effect(if data == 9 || data == 10 || data == 11
                      then g.(isVsRound := data != 10, vsWasPressed := false, guessed := 0,
                              isPlayer1 := !g.isPlayer1, timeLeft := 4)
                      else if data == 12 then g.(gameEnd := true, ws := if g.isHost then Winner1 else Winner2)
                      else if data == 2 then g.(gameEnd := true, ws := Tie)
                      else g, [])
  {
  }

  /** The client is reset with the size that two bytes announce, the low one first, and says ACK if it can. */
  lemma SizeIsRead(p: Peer, low: byte, high: byte)
    requires p.screen == PlayScreen && !p.gameStarted && !p.game.isHost && p.receivedNoBytes == 0
    ensures var q := Handle(Handle(p, Received(low), 0).0, Received(high), 0);
            && q.0.game == Game(false, true, [], 256 * high + low, 0, 0, -1, true, false, false, p.game.ws)
            && q.0.gameStarted == p.uart.thr.None?
            && q.1 == if p.uart.thr.None? then [0] else []
  {
  }

  // ---------------------------------------------------------------- waiting

  predicate CanPlay(p: Peer) {
    AcceptsClick(p) && p.screen == PlayScreen
  }

  function Ticks(p: Peer, n: nat, lowest: int): Peer {
    if n == 0 then p else Handle(Ticks(p, n - 1, lowest), Rtc, lowest).0
  }

  /** Without a click nothing but the clock changes until it has run out; while it is off, nothing at all. */
  lemma {:induction false} Waiting(p: Peer, n: nat, lowest: int)
    requires CanPlay(p) && -1 <= p.game.timeLeft && (p.game.timeLeft == -1 || n <= p.game.timeLeft)
    ensures Ticks(p, n, lowest)
            == if p.game.timeLeft == -1 then p else p.(game := p.game.(timeLeft := p.game.timeLeft - n))
  {
    if n > 0 {
      Waiting(p, n - 1, lowest);
    }
  }

  /** At the tick after that the player has lost and says so, or the VS turn is handed over. */
  lemma TimeIsUp(p: Peer, n: nat, lowest: int)
    requires CanPlay(p) && p.game.timeLeft == n
    ensures var g := p.game.(timeLeft := 0);
            Handle(Ticks(p, n, lowest), Rtc, lowest)
            == if !p.game.vsWasPressed
               then (p.(game := g.(gameEnd := true, ws := if g.isPlayer1 then Winner2 else Winner1),
                        uart := Send(p.uart, 12)), [12])
               else if !p.game.isVsRound then (p.(game := g), [])
               else if p.game.isHost
               then (p.(game := g.(isPlayer1 := !g.isPlayer1, guessed := 0, vsWasPressed := false),
                        uart := Send(p.uart, 9)), [9])
               else (p.(game := g.(isPlayer1 := !g.isPlayer1, guessed := 0), uart := Send(p.uart, 11)), [11])
  {
    Waiting(p, n, lowest);
  }

  /** The clock of a player at turn, in any state of any run. */
  predicate ClockInRange(g: Game) {
    MyTurn(g) ==> if g.vsWasPressed then 0 <= g.timeLeft <= 6 else -1 <= g.timeLeft <= 4
  }

  predicate ClocksInRange(s: System) {
    forall x :: GameIsReset(At(s, x).peer) ==> ClockInRange(GameAt(s, x))
  }

  lemma ClockAfterClick(g: Game, c: Click)
    requires ClockInRange(g)
    ensures MyTurn(g) ==> ClockInRange(LocalClick(g, c).game)
    ensures !MyTurn(g) ==> ClockInRange(RemoteClick(g, c))
  {
  }

  lemma ClockAfterByte(g: Game, data: byte)
    requires ClockInRange(g)
    ensures ClockInRange(PlayGame(g, data).game)
  {
    if IsButton(data) {
      ClockAfterClick(g, data - GREEN_REMOTE);
    } else {
      OtherBytes(g, data);
    }
  }

  /** What one event does to the clock of the PC that handles it. */
  lemma ClockAfterHandle(p: Peer, event: Event, lowest: int)
    requires GameIsReset(p) ==> ClockInRange(p.game)
    requires event.Rtc? || event.Enter? ==> GameIsReset(p)
    ensures var p' := Handle(p, event, lowest).0; GameIsReset(p') ==> ClockInRange(p'.game)
  {
    match event
    case Mouse(c) => if p.gameStarted { ClockAfterClick(p.game, c); }
    case Received(data) => if p.gameStarted { ClockAfterByte(p.game, data); }
    case _ =>
  }

  lemma ClockAfterAct(s: System, x: Side, event: Event, lowest: int)
    requires ClocksInRange(s) && (event.Rtc? || event.Enter? ==> GameIsReset(At(s, x).peer))
    ensures ClocksInRange(Act(s, x, Handle(At(s, x).peer, event, lowest)))
  {
    ClockAfterHandle(At(s, x).peer, event, lowest);
    ActParts(s, x, Handle(At(s, x).peer, event, lowest));
    forall y | GameIsReset(At(Act(s, x, Handle(At(s, x).peer, event, lowest)), y).peer)
      ensures ClockInRange(GameAt(Act(s, x, Handle(At(s, x).peer, event, lowest)), y))
    {
      assert y == x || y == Other(x);
    }
  }

  lemma ClocksStay(s: System, s': System)
    requires ClocksInRange(s)
    requires forall x :: GameAt(s', x) == GameAt(s, x) && GameIsReset(At(s', x).peer) == GameIsReset(At(s, x).peer)
    ensures ClocksInRange(s')
  {
    forall x | GameIsReset(At(s', x).peer) ensures ClockInRange(GameAt(s', x)) {
      assert GameIsReset(At(s, x).peer);
    }
  }

  lemma ClockAfterStep(s: System, step: Step)
    requires ClocksInRange(s) && Enabled(s, step)
    ensures ClocksInRange(Next(s, step))
  {
    match step
    case DrainStep(_) => ClocksStay(s, Next(s, step));
    case ThrEmptyStep(x) => ClockAfterAct(s, x, ThrEmpty, 0);
    case DeliverStep(x) =>
      ClocksStay(s, Taken(s, x));
      ClockAfterAct(Taken(s, x), Other(x), Received(At(s, x).wire[0]), 0);
    case _ => ClockAfterAct(s, step.who, LocalEventOf(step), Lowest(step));
  }

  lemma {:induction false} ClocksAlong(s: System, steps: seq<Step>)
    requires ClocksInRange(s) && IsRun(s, steps)
    ensures ClocksInRange(Run(s, steps))
    decreases |steps|
  {
    if steps != [] {
      ClockAfterStep(s, steps[0]);
      ClocksAlong(Next(s, steps[0]), steps[1..]);
    }
  }

  /** On every run and for any size the clock of the player at turn is off or shows at most 4, in a VS turn 0 to 6. */
  lemma EveryClockIsInRange(s: System, rounds: nat, x: Side)
    requires Reachable(s, rounds) && GameIsReset(At(s, x).peer) && MyTurn(GameAt(s, x))
    ensures var g := GameAt(s, x); if g.vsWasPressed then 0 <= g.timeLeft <= 6 else -1 <= g.timeLeft <= 4
  {
    var o :| IsFirst(o) && Reaches(Start(rounds, o), s, false);
    var steps :| IsRun(Start(rounds, o), steps) && s == Run(Start(rounds, o), steps);
    ClocksAlong(Start(rounds, o), steps);
  }

  // ---------------------------------------------------------------- the end

  /** A PC whose game has ended leaves its screen at a tick or ENTER: a name is asked for exactly when the result is entered. */
  lemma NameIsAskedIffEntered(p: Peer, event: Event, board: seq<Ranking.Entry>, e: Ranking.Entry)
    requires p.game.gameEnd && p.screen == PlayScreen && (event == Rtc || event == Enter)
    requires |board| == Ranking.SIZE && e.score == p.game.playerScore
    ensures var (p', bytes) := Handle(p, event, board[4].score);
            && p'.screen != PlayScreen && p' == p.(screen := p'.screen) && bytes == []
            && (p'.screen == NameScreen <==> Ranking.Finish(board, Ranking.Finished(p.game.ws, e)) != board)
  {
    if e.score > board[4].score {
      Ranking.SubmitChanges(board, e);
    }
  }
}
