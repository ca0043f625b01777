/** Runs that exist: the handshake completes, and the steps at which agreement ends can be reached. */
module TwoPcExamples {
  import opened Consts
  import opened TwoPcRules
  import opened TwoPcRuns
  import opened TwoPcTheorems

  // ---------------------------------------------------------------- bytes that arrive

  /** Both play on the game's screen, and nothing waits in either port or on either wire. */
  predicate Quiet(s: System) {
    && s.host.peer.gameStarted && s.client.peer.gameStarted
    && !HasLeft(s.host.peer) && !HasLeft(s.client.peer)
    && forall x :: At(s, x).wire == [] && At(s, x).peer.uart.thr.None? && !At(s, x).peer.uart.hasData
  }

  /** One byte leaves the register of `x` and arrives. */
  lemma Carry(s: System, t: System, x: Side, inStep: bool) returns (t': System)
    requires Reaches(s, t, inStep) && At(t, x).peer.uart.thr.Some? && At(t, x).wire == []
    ensures Reaches(s, t', inStep) && t' == Next(Next(t, DrainStep(x)), DeliverStep(x))
  {
    ReachesNext(s, t, DrainStep(x), inStep);
    ReachesNext(s, Next(t, DrainStep(x)), DeliverStep(x), inStep);
    t' := Next(Next(t, DrainStep(x)), DeliverStep(x));
  }

  /** The sender's register is empty then, and the receiver has handled the byte. */
  lemma ByteArrives(s: System, t: System, x: Side, inStep: bool) returns (t': System)
    requires Reaches(s, t, inStep) && At(t, x).wire == [] && At(t, x).peer.uart.thr.Some?
    requires !HasLeft(At(t, Other(x)).peer)
    ensures Reaches(s, t', inStep) && t' == Next(Next(t, DrainStep(x)), DeliverStep(x))
    ensures var n, m, b := At(t, x), At(t, Other(x)), At(t, x).peer.uart.thr.value;
            && At(t', x) == Node(n.peer.(uart := n.peer.uart.(thr := None)), [], n.delivered + [b])
            && At(t', Other(x)) == m.(peer := Receive(m.peer, b).0)
  {
    t' := Carry(s, t, x, inStep);
  }

  /** During the game, at a PC that is not at turn. */
  lemma ByteIsPlayed(q: Peer, b: byte)
    requires q.gameStarted && !MyTurn(q.game)
    ensures Receive(q, b).0 == q.(game := PlayGame(q.game, b).game)
    ensures IsButton(b) ==> !MyTurn(PlayGame(q.game, b).game)
  {
  }

  /** Both play, the wires are empty, and only the port of `x` may hold bytes. */
  predicate Idle(t: System, x: Side) {
    && t.host.peer.gameStarted && t.client.peer.gameStarted
    && !HasLeft(t.host.peer) && !HasLeft(t.client.peer)
    && t.host.wire == [] && t.client.wire == []
    && At(t, Other(x)).peer.uart.thr.None? && !At(t, Other(x)).peer.uart.hasData
  }

  /** The state right after `x` gave `bytes` to its empty port. */
  predicate Sending(t: System, x: Side, bytes: Burst) {
    Idle(t, x) && exists d :: At(t, x).peer.uart == SendAll(Uart(None, false, d), bytes)
  }

  /** The interrupt of the empty transmitter puts the queued byte into the register. */
  lemma QueueMoves(t: System, x: Side, b: byte)
    requires At(t, x).peer.uart == Uart(None, true, b) && At(t, x).peer.gameStarted && !HasLeft(At(t, x).peer)
    ensures var t' := Next(t, ThrEmptyStep(x));
            && At(t', x) == At(t, x).(peer := At(t, x).peer.(uart := Uart(Some(b), false, b)))
            && At(t', Other(x)) == At(t, Other(x))
  {
  }

  lemma QueuedByteArrives(s: System, t: System, x: Side, b: byte, inStep: bool) returns (t': System)
    requires Reaches(s, t, inStep) && Idle(t, x) && !MyTurn(GameAt(t, Other(x)))
    requires At(t, x).peer.uart == Uart(None, true, b)
    ensures Reaches(s, t', inStep) && Quiet(t')
    ensures GameAt(t', x) == GameAt(t, x) && GameAt(t', Other(x)) == PlayGame(GameAt(t, Other(x)), b).game
  {
    QueueMoves(t, x, b);
    ReachesNext(s, t, ThrEmptyStep(x), inStep);
    ByteIsPlayed(At(t, Other(x)).peer, b);
    t' := ByteArrives(s, Next(t, ThrEmptyStep(x)), x, inStep);
  }

  lemma FirstByteArrives(s: System, t: System, x: Side, a: byte, b: byte, inStep: bool) returns (t': System)
    requires Reaches(s, t, inStep) && Idle(t, x) && At(t, x).peer.uart == Uart(Some(a), true, b)
    requires !MyTurn(GameAt(t, Other(x)))
    ensures Reaches(s, t', inStep) && Idle(t', x) && At(t', x).peer.uart == Uart(None, true, b)
    ensures GameAt(t', x) == GameAt(t, x) && GameAt(t', Other(x)) == PlayGame(GameAt(t, Other(x)), a).game
  {
    ByteIsPlayed(At(t, Other(x)).peer, a);
    t' := ByteArrives(s, t, x, inStep);
  }

  /** The register first, then the queued byte. */
  lemma TwoBytesArrive(s: System, t: System, x: Side, a: byte, b: byte, inStep: bool) returns (t': System)
    requires Reaches(s, t, inStep) && Idle(t, x) && At(t, x).peer.uart == Uart(Some(a), true, b)
    requires !MyTurn(GameAt(t, Other(x))) && IsButton(a)
    ensures Reaches(s, t', inStep) && Quiet(t')
    ensures GameAt(t', x) == GameAt(t, x) && GameAt(t', Other(x)) == Replay(GameAt(t, Other(x)), [a, b])
  {
    ReplayBurst(GameAt(t, Other(x)), a, b);
    ByteIsPlayed(At(t, Other(x)).peer, a);
    t' := FirstByteArrives(s, t, x, a, b, inStep);
    t' := QueuedByteArrives(s, t', x, b, inStep);
  }

  lemma BurstArrives(s: System, t: System, x: Side, bytes: Burst, inStep: bool) returns (t': System)
    requires Reaches(s, t, inStep) && Sending(t, x, bytes) && !MyTurn(GameAt(t, Other(x)))
    requires |bytes| == 2 ==> IsButton(bytes[0])
    ensures Reaches(s, t', inStep) && Quiet(t')
    ensures GameAt(t', x) == GameAt(t, x) && GameAt(t', Other(x)) == Replay(GameAt(t, Other(x)), bytes)
  {
    if |bytes| == 2 {
      assert bytes == [bytes[0], bytes[1]];
      t' := TwoBytesArrive(s, t, x, bytes[0], bytes[1], inStep);
    } else if |bytes| == 1 {
      ReplayBurst(GameAt(t, Other(x)), bytes[0], bytes[0]);
      assert bytes == [bytes[0]];
      ByteIsPlayed(At(t, Other(x)).peer, bytes[0]);
      t' := ByteArrives(s, t, x, inStep);
    } else {
      t' := t;
    }
  }

  /** A click or a tick of the player at turn, and the arrival of all that it sends. */
  lemma EventArrives(s: System, t: System, x: Side, step: Step, inStep: bool) returns (t': System)
    requires Reaches(s, t, inStep) && Quiet(t) && ActsAtTurn(t, x, step) && !MyTurn(GameAt(t, Other(x)))
    requires inStep ==> !EndsClientVsTurn(t, step)
    ensures Reaches(s, t', inStep) && Quiet(t')
    ensures var e := TurnEffectOf(GameAt(t, x), step);
            GameAt(t', x) == e.game && GameAt(t', Other(x)) == Replay(GameAt(t, Other(x)), e.bytes)
  {
    var p := At(t, x).peer;
    var e := TurnEffectOf(p.game, step);
    assert Handle(p, LocalEventOf(step), Lowest(step)) == (Emit(p, e), e.bytes);
    ReachesNext(s, t, step, inStep);
    assert At(t, x).peer.uart == Uart(None, false, p.uart.data);
    t' := BurstArrives(s, Next(t, step), x, e.bytes, inStep);
  }

  // ---------------------------------------------------------------- the handshake

  /** A byte that arrives during the handshake. */
  lemma SetupByteArrives(s: System, t: System, x: Side, rounds: nat, inStep: bool) returns (t': System)
    requires Setup(t, rounds) && Ordered(t)
    requires Reaches(s, t, inStep) && At(t, x).wire == [] && At(t, x).peer.uart.thr.Some?
    ensures Reaches(s, t', inStep) && Ordered(t') && (Setup(t', rounds) || Ready(t', rounds))
    ensures var n, m, b := At(t, x), At(t, Other(x)), At(t, x).peer.uart.thr.value;
            && At(t', x) == Node(n.peer.(uart := n.peer.uart.(thr := None)), [], n.delivered + [b])
            && At(t', Other(x)) == m.(peer := Receive(m.peer, b).0)
  {
    SetupStep(t, rounds, DrainStep(x));
    SetupStep(Next(t, DrainStep(x)), rounds, DeliverStep(x));
    t' := ByteArrives(s, t, x, inStep);
  }

  /** The client's first byte, or the host's first interrupt, makes the host announce the size; its low byte arrives. */
  lemma LowByteCanArrive(rounds: nat, o: Opening, inStep: bool) returns (t: System)
    requires IsFirst(o)
    ensures Reaches(Start(rounds, o), t, inStep) && Setup(t, rounds) && Ordered(t)
    ensures t.host.peer.numRoundSentBytes == 1 && t.client.peer.receivedNoBytes == 1
    ensures t.host.wire == [] && t.client.wire == []
    ensures t.host.peer.uart.thr.None? && t.client.peer.uart.thr.None? && !t.client.peer.gameStarted
  {
    var s := Start(rounds, o);
    ReachesItself(s, inStep);
    StartInvariant(rounds, o);
    var t1;
    if o.early {
      SetupThrEmpty(s, rounds, Host);
      ReachesNext(s, s, ThrEmptyStep(Host), inStep);
      t1 := Next(s, ThrEmptyStep(Host));
    } else {
      t1 := SetupByteArrives(s, s, Client, rounds, inStep);
    }
    assert t1.host.peer.uart.thr == Some(SizeByte(rounds, 0));
    t := SetupByteArrives(s, t1, Host, rounds, inStep);
  }

  /** The host's second interrupt puts the other byte of the size into the register. */
  lemma SecondByteIsSent(t: System, rounds: nat)
    requires Setup(t, rounds) && t.host.peer.uart.thr.None? && t.host.peer.numRoundSentBytes == 1
    ensures var t' := Next(t, ThrEmptyStep(Host));
            && t'.client == t.client && t'.host.wire == t.host.wire
            && t'.host.peer.uart.thr == Some(SizeByte(rounds, 1)) && !t'.host.peer.gameStarted
  {
  }

  /** The second byte of the size arrives, and the client answers. */
  lemma SizeCanArrive(rounds: nat, o: Opening, inStep: bool) returns (t: System)
    requires IsFirst(o)
    ensures Reaches(Start(rounds, o), t, inStep) && Setup(t, rounds) && Ordered(t)
    ensures t.client.peer.uart.thr == Some(ACK) && t.client.peer.gameStarted
    ensures t.host.wire == [] && t.client.wire == [] && t.host.peer.uart.thr.None?
  {
    var s := Start(rounds, o);
    var t1 := LowByteCanArrive(rounds, o, inStep);
    var t2 := Next(t1, ThrEmptyStep(Host));
    SetupThrEmpty(t1, rounds, Host);
    SecondByteIsSent(t1, rounds);
    ReachesNext(s, t1, ThrEmptyStep(Host), inStep);
    t := SetupByteArrives(s, t2, Host, rounds, inStep);
  }

  /** The handshake can be completed from every first session. */
  lemma HandshakeCanFinish(rounds: nat, o: Opening, inStep: bool) returns (t: System)
    requires IsFirst(o)
    ensures Reaches(Start(rounds, o), t, inStep) && Ready(t, rounds) && Quiet(t)
  {
    var t1 := SizeCanArrive(rounds, o, inStep);
    t := SetupByteArrives(Start(rounds, o), t1, Client, rounds, inStep);
  }

  // ---------------------------------------------------------------- whole games

  /** `x` is at turn in a running game, the other replica agrees, and nothing is under way. */
  predicate AtTurn(t: System, x: Side) {
    var g, q := GameAt(t, x), GameAt(t, Other(x));
    && Quiet(t) && Agree(g, q) && MyTurn(g) && !MyTurn(q)
    && !g.gameEnd && g.isVsRound && !g.vsWasPressed && g.guessed <= |g.buttons| <= g.maxButtonsSize
    && NO_BUTTON !in g.buttons
  }

  /** The player at turn can repeat the whole sequence. */
  lemma CanRepeat(s: System, t: System, x: Side, inStep: bool) returns (t': System)
    requires Reaches(s, t, inStep) && AtTurn(t, x)
    ensures Reaches(s, t', inStep) && AtTurn(t', x)
    ensures var g := GameAt(t, x);
            GameAt(t', x) == g.(guessed := |g.buttons|, timeLeft := GameAt(t', x).timeLeft)
    decreases |GameAt(t, x).buttons| - GameAt(t, x).guessed
  {
    var g := GameAt(t, x);
    t' := t;
    if g.guessed < |g.buttons| {
      var c := g.buttons[g.guessed];
      ClickReplays(g, c, GameAt(t, Other(x)));
      t' := EventArrives(s, t, x, ClickStep(x, c), inStep);
      t' := CanRepeat(s, t', x, inStep);
    }
  }

  /** It can then add a green button, and the turn passes. */
  lemma CanExtend(s: System, t: System, x: Side, inStep: bool) returns (t': System)
    requires Reaches(s, t, inStep) && AtTurn(t, x)
    requires GameAt(t, x).guessed == |GameAt(t, x).buttons| < GameAt(t, x).maxButtonsSize
    ensures Reaches(s, t', inStep) && AtTurn(t', Other(x))
    ensures GameAt(t', Other(x)).buttons == GameAt(t, x).buttons + [0] && GameAt(t', Other(x)).guessed == 0
    ensures GameAt(t', Other(x)).maxButtonsSize == GameAt(t, x).maxButtonsSize
    ensures GameAt(t', Other(x)).isHost != GameAt(t, x).isHost
  {
    var g, q := GameAt(t, x), GameAt(t, Other(x));
    var e := LocalClick(g, 0);
    assert Classify(g, 0) == Extend;
    ClickReplays(g, 0, q);
    ReplayBurst(q, GREEN_REMOTE, TurnByte(g));
    assert e.bytes == [GREEN_REMOTE, TurnByte(g)];
    t' := EventArrives(s, t, x, ClickStep(x, 0), inStep);
  }

  /** A PC at turn can bring the game to a tie: one PC has ended, the other has not. */
  lemma CanTie(s: System, t: System, x: Side, inStep: bool) returns (t': System, y: Side)
    requires Reaches(s, t, inStep) && AtTurn(t, x)
    ensures Reaches(s, t', inStep) && Quiet(t') && Tied(GameAt(t', y)) && !GameAt(t', Other(y)).gameEnd
    decreases GameAt(t, x).maxButtonsSize - |GameAt(t, x).buttons|
  {
    t' := CanRepeat(s, t, x, inStep);
    var g := GameAt(t', x);
    if |g.buttons| < g.maxButtonsSize {
      t' := CanExtend(s, t', x, inStep);
      t', y := CanTie(s, t', Other(x), inStep);
    } else {
      y := x;
      assert EndsInTie(t', x, ClickStep(x, 0));
      ClickReplays(g, 0, GameAt(t', Other(x)));
      t' := EventArrives(s, t', x, ClickStep(x, 0), inStep);
    }
  }

  lemma ReadyIsAtTurn(t: System, rounds: nat)
    requires Ready(t, rounds) && Quiet(t) && rounds <= 255
    ensures AtTurn(t, Host)
  {
  }

  /** For every number of rounds that fits a byte the two PCs can play to a tie, of which one is not told. */
  lemma TieCanHappen(rounds: nat, o: Opening) returns (t: System, x: Side)
    requires IsFirst(o) && rounds <= 255
    ensures ReachableInStep(t, rounds) && t.host.peer.gameStarted
    ensures InFlight(t, Host) == [] && InFlight(t, Client) == []
    ensures Tied(GameAt(t, x)) && !GameAt(t, Other(x)).gameEnd
  {
    var t0 := HandshakeCanFinish(rounds, o, true);
    ReadyIsAtTurn(t0, rounds);
    t, x := CanTie(Start(rounds, o), t0, Host, true);
  }

  // ---------------------------------------------------------------- VS turns of the client

  /** The player at turn, with the sequence repeated, opens its VS turn. */
  lemma CanOpenVs(s: System, t: System, x: Side, inStep: bool) returns (t': System)
    requires Reaches(s, t, inStep) && AtTurn(t, x)
    requires GameAt(t, x).guessed == |GameAt(t, x).buttons| < GameAt(t, x).maxButtonsSize
    ensures Reaches(s, t', inStep) && Quiet(t')
    ensures var g := GameAt(t, x);
            && GameAt(t', x) == g.(buttons := g.buttons + [VS_B], playerScore := |g.buttons|,
                                   vsWasPressed := true, timeLeft := VS_INTERVAL)
            && Agree(GameAt(t', x), GameAt(t', Other(x)))
  {
    var g := GameAt(t, x);
    assert Classify(g, VS_B) == StartVs;
    ClickReplays(g, VS_B, GameAt(t, Other(x)));
    t' := EventArrives(s, t, x, ClickStep(x, VS_B), inStep);
  }

  /** Time passes at a PC at turn. */
  lemma Wait(s: System, t: System, x: Side, inStep: bool, n: nat) returns (t': System)
    requires Reaches(s, t, inStep) && Quiet(t) && MyTurn(GameAt(t, x)) && !GameAt(t, x).gameEnd
    requires !MyTurn(GameAt(t, Other(x))) && GameAt(t, x).timeLeft == n
    ensures Reaches(s, t', inStep) && Quiet(t')
    ensures GameAt(t', x) == GameAt(t, x).(timeLeft := 0) && GameAt(t', Other(x)) == GameAt(t, Other(x))
    decreases n
  {
    t' := t;
    if n > 0 {
      t' := EventArrives(s, t, x, TickStep(x, 0), inStep);
      t' := Wait(s, t', x, inStep, n - 1);
    }
  }

  /** The client's VS turn, opened after the first button and about to end. */
  lemma ClientVsTurn(rounds: nat, o: Opening, inStep: bool) returns (t: System)
    requires IsFirst(o) && 2 <= rounds <= 255
    ensures Reaches(Start(rounds, o), t, inStep) && Quiet(t)
    ensures var g := GameAt(t, Client);
            && g == Game(false, false, [0, VS_B], rounds, 1, 1, 0, true, true, false, g.ws)
            && Agree(g, GameAt(t, Host))
  {
    var s := Start(rounds, o);
    t := HandshakeCanFinish(rounds, o, inStep);
    ReadyIsAtTurn(t, rounds);
    t := CanExtend(s, t, Host, inStep);
    t := CanRepeat(s, t, Client, inStep);
    t := CanOpenVs(s, t, Client, inStep);
    t := Wait(s, t, Client, inStep, VS_INTERVAL);
  }

  /** Two PCs can get to the step that `ClientVsTurnBreaksAgreement` is about. */
  lemma ClientVsTurnCanEnd(rounds: nat, o: Opening) returns (t: System)
    requires IsFirst(o) && 2 <= rounds <= 255
    ensures ReachableInStep(t, rounds) && Enabled(t, TickStep(Client, 0)) && EndsClientVsTurn(t, TickStep(Client, 0))
  {
    t := ClientVsTurn(rounds, o, true);
  }

  // ---------------------------------------------------------------- a loss that is not heard

  /** Both play and nothing is under way; these are the games. */
  predicate Games(t: System, host: Game, client: Game) {
    Quiet(t) && GameAt(t, Host) == host && GameAt(t, Client) == client
  }

  /** A click or tick that sends one byte. */
  lemma OneByteIsHeard(s: System, t: System, x: Side, step: Step) returns (t': System)
    requires Reaches(s, t, false) && Quiet(t) && ActsAtTurn(t, x, step) && !MyTurn(GameAt(t, Other(x)))
    requires |TurnEffectOf(GameAt(t, x), step).bytes| == 1
    ensures Reaches(s, t', false) && Quiet(t')
    ensures var e := TurnEffectOf(GameAt(t, x), step);
            GameAt(t', x) == e.game && GameAt(t', Other(x)) == PlayGame(GameAt(t, Other(x)), e.bytes[0]).game
  {
    var e := TurnEffectOf(GameAt(t, x), step);
    ReplayBurst(GameAt(t, Other(x)), e.bytes[0], e.bytes[0]);
    assert e.bytes == [e.bytes[0]];
    t' := EventArrives(s, t, x, step, false);
  }

  /** The VS turn of the client ends, and the client keeps its VS flag. */
  lemma ClientPasses(o: Opening) returns (t: System, hw: Winner, cw: Winner)
    requires IsFirst(o)
    ensures Reaches(Start(3, o), t, false)
    ensures Games(t, Game(true, true, [0, VS_B], 3, 0, 1, 4, true, false, false, hw),
                     Game(false, true, [0, VS_B], 3, 0, 1, 0, true, true, false, cw))
  {
    t := ClientVsTurn(3, o, false);
    hw, cw := GameAt(t, Host).ws, GameAt(t, Client).ws;
    t := OneByteIsHeard(Start(3, o), t, Client, TickStep(Client, 0));
  }

  /** The host repeats the two buttons: the client adds them again. */
  lemma HostRepeats(o: Opening) returns (t: System, hw: Winner, cw: Winner)
    requires IsFirst(o)
    ensures Reaches(Start(3, o), t, false)
    ensures Games(t, Game(true, true, [0, VS_B], 3, 2, 1, -1, true, false, false, hw),
                     Game(false, true, [0, VS_B, 0, VS_B], 3, 0, 1, 0, true, true, false, cw))
  {
    t, hw, cw := ClientPasses(o);
    t := OneByteIsHeard(Start(3, o), t, Host, ClickStep(Host, 0));
    t := OneByteIsHeard(Start(3, o), t, Host, ClickStep(Host, VS_B));
  }

  /** The host adds a button and hands the turn over: the client now has a longer sequence. */
  lemma HostExtends(o: Opening) returns (t: System, hw: Winner, cw: Winner)
    requires IsFirst(o)
    ensures Reaches(Start(3, o), t, false)
    ensures Games(t, Game(true, false, [0, VS_B, 0], 3, 0, 2, -1, true, false, false, hw),
                     Game(false, false, [0, VS_B, 0, VS_B, 0], 3, 0, 1, 4, true, false, false, cw))
  {
    t, hw, cw := HostRepeats(o);
    ReplayBurst(GameAt(t, Client), GREEN_REMOTE, IS_VS);
    assert LocalClick(GameAt(t, Host), 0).bytes == [GREEN_REMOTE, IS_VS];
    t := EventArrives(Start(3, o), t, Host, ClickStep(Host, 0), false);
  }

  lemma ClientRepeats(o: Opening) returns (t: System, hw: Winner, cw: Winner)
    requires IsFirst(o)
    ensures Reaches(Start(3, o), t, false)
    ensures Games(t, Game(true, false, [0, VS_B, 0], 3, 2, 2, -1, true, false, false, hw),
                     Game(false, false, [0, VS_B, 0, VS_B, 0], 3, 2, 1, 4, true, false, false, cw))
  {
    t, hw, cw := HostExtends(o);
    t := OneByteIsHeard(Start(3, o), t, Client, ClickStep(Client, 0));
    t := OneByteIsHeard(Start(3, o), t, Client, ClickStep(Client, VS_B));
  }

  /** The client repeats more than the host has: the host takes the game for a tie. */
  lemma HostTies(o: Opening) returns (t: System, cw: Winner)
    requires IsFirst(o)
    ensures Reaches(Start(3, o), t, false)
    ensures Games(t, Game(true, false, [0, VS_B, 0], 3, 3, 3, -1, true, false, true, Tie),
                     Game(false, false, [0, VS_B, 0, VS_B, 0], 3, 4, 1, 4, true, false, false, cw))
  {
    var hw;
    t, hw, cw := ClientRepeats(o);
    t := OneByteIsHeard(Start(3, o), t, Client, ClickStep(Client, 0));
    t := OneByteIsHeard(Start(3, o), t, Client, ClickStep(Client, VS_B));
  }

  /** A tick of a PC whose game has ended. */
  lemma LeavingTick(t: System, x: Side)
    requires !HasLeft(At(t, x).peer) && At(t, x).peer.gameStarted && GameAt(t, x).gameEnd
    ensures Enabled(t, TickStep(x, 0))
    ensures var t' := Next(t, TickStep(x, 0));
            && At(t', Other(x)) == At(t, Other(x)) && HasLeft(At(t', x).peer)
            && At(t', x) == At(t, x).(peer := At(t, x).peer.(screen := At(t', x).peer.screen))
  {
  }

  /** A mistake by a PC whose port is empty. */
  lemma MistakeIsAnnounced(t: System, x: Side, c: Click)
    requires AcceptsClick(At(t, x).peer) && !HasLeft(At(t, x).peer) && c != NO_BUTTON
    requires Classify(GameAt(t, x), c) == Mistake
    requires At(t, x).peer.uart.thr.None? && !At(t, x).peer.uart.hasData
    ensures Enabled(t, ClickStep(x, c))
    ensures var t' := Next(t, ClickStep(x, c));
            && At(t', Other(x)) == At(t, Other(x))
            && At(t', x).wire == At(t, x).wire && At(t', x).peer.uart == At(t, x).peer.uart.(thr := Some(LOSE))
            && GameAt(t', x).ws == Opponent(GameAt(t, x).isPlayer1)
            && t'.log == t.log + [Sent(x, LOSE, false)]
  {
  }

  /** A byte that arrives at a PC that has left the screen. */
  lemma ByteIsDropped(s: System, t: System, x: Side, inStep: bool) returns (t': System)
    requires Reaches(s, t, inStep) && At(t, x).peer.uart.thr.Some? && At(t, x).wire == []
    requires HasLeft(At(t, Other(x)).peer)
    ensures Reaches(s, t', inStep) && At(t', Other(x)) == At(t, Other(x)) && t'.log == t.log
    ensures At(t', x).wire == [] && At(t', x).peer == At(t, x).peer.(uart := At(t, x).peer.uart.(thr := None))
  {
    t' := Carry(s, t, x, inStep);
  }

  /** The client plays alone: the host has ended and left the screen, and nothing is under way. */
  predicate Alone(t: System) {
    && t.client.peer.gameStarted && !HasLeft(t.client.peer)
    && t.host.peer.gameStarted && HasLeft(t.host.peer)
    && t.host.wire == [] && t.client.wire == [] && Held(t.host.peer.uart) == []
  }

  lemma LossIsDropped(s: System, t: System) returns (t': System)
    requires Reaches(s, t, false) && Alone(t) && Held(t.client.peer.uart) == []
    requires AcceptsClick(t.client.peer) && Classify(GameAt(t, Client), 1) == Mistake
    ensures Reaches(s, t', false) && LossArrived(t', Client)
    ensures t'.host == t.host && GameAt(t', Client).ws == Opponent(GameAt(t, Client).isPlayer1)
  {
    MistakeIsAnnounced(t, Client, 1);
    ReachesNext(s, t, ClickStep(Client, 1), false);
    t' := ByteIsDropped(s, Next(t, ClickStep(Client, 1)), Client, false);
  }

  /** The host leaves the screen, and the mistake that the client makes then is not heard. */
  lemma LossCanBeMissed(o: Opening) returns (t: System)
    requires IsFirst(o)
    ensures Reachable(t, 3) && LossArrived(t, Client)
    ensures HasLeft(t.host.peer) && GameAt(t, Host).ws == Tie && GameAt(t, Client).ws == Winner1
  {
    var s := Start(3, o);
    var t0, cw := HostTies(o);
    LeavingTick(t0, Host);
    ReachesNext(s, t0, TickStep(Host, 0), false);
    t := LossIsDropped(s, Next(t0, TickStep(Host, 0)));
  }

  // ---------------------------------------------------------------- a turn that is lost

  /** The client repeats its last button, and the host leaves the screen. */
  lemma HostLeaves(o: Opening) returns (t: System, cw: Winner)
    requires IsFirst(o)
    ensures Reaches(Start(3, o), t, false) && Alone(t) && Held(t.client.peer.uart) == []
    ensures !GameAt(t, Host).isPlayer1
    ensures GameAt(t, Client) == Game(false, false, [0, VS_B, 0, VS_B, 0], 3, 5, 1, -1, true, false, false, cw)
  {
    t, cw := HostTies(o);
    t := OneByteIsHeard(Start(3, o), t, Client, ClickStep(Client, 0));
    LeavingTick(t, Host);
    ReachesNext(Start(3, o), t, TickStep(Host, 0), false);
    t := Next(t, TickStep(Host, 0));
  }

  /** A click that closes the client's turn. */
  lemma ExtendIsSent(t: System, c: Click)
    requires Alone(t) && Held(t.client.peer.uart) == [] && AcceptsClick(t.client.peer) && !GameAt(t, Client).isHost
    requires c != NO_BUTTON && Classify(GameAt(t, Client), c) == Extend
    ensures Enabled(t, ClickStep(Client, c))
    ensures var t' := Next(t, ClickStep(Client, c));
            && Alone(t') && t'.host == t.host && t'.client.peer.uart == Uart(Some(ButtonByte(c)), true, READY)
            && GameAt(t', Client).isPlayer1 && !GameAt(t', Client).isHost
  {
    assert LocalClick(GameAt(t, Client), c).bytes == [ButtonByte(c), READY];
  }

  /** The button is dropped, and the byte that hands the turn over is on its way. */
  lemma TurnIsSent(s: System, t: System, b: byte) returns (t': System)
    requires Reaches(s, t, false) && Alone(t) && t.client.peer.uart == Uart(Some(b), true, READY)
    ensures Reaches(s, t', false) && t'.host == t.host
    ensures t'.client.wire == [READY] && Held(t'.client.peer.uart) == [] && GameAt(t', Client) == GameAt(t, Client)
  {
    t' := ByteIsDropped(s, t, Client, false);
    QueueMoves(t', Client, READY);
    ReachesNext(s, t', ThrEmptyStep(Client), false);
    t' := Next(t', ThrEmptyStep(Client));
    ReachesNext(s, t', DrainStep(Client), false);
    t' := Next(t', DrainStep(Client));
  }

  lemma TurnOnTheWay(t: System)
    requires t.host.wire == [] && Held(t.host.peer.uart) == [] && !GameAt(t, Host).isPlayer1
    requires t.client.wire == [READY] && Held(t.client.peer.uart) == []
    requires GameAt(t, Client).isPlayer1 && !GameAt(t, Client).isHost && HasLeft(t.host.peer)
    ensures TurnCount(t) == 1 && LosesTurn(t, DeliverStep(Client))
  {
    assert InFlight(t, Host) == [] && InFlight(t, Client) == [READY];
    assert Turns([READY], Client) == 1 by { assert [READY][1..] == []; }
  }

  /** Two PCs can get to the step that `TurnIsLost` is about. */
  lemma TurnCanBeLost(o: Opening) returns (t: System)
    requires IsFirst(o)
    ensures Reachable(t, 3) && t.host.peer.gameStarted && TurnCount(t) == 1
    ensures Enabled(t, DeliverStep(Client)) && LosesTurn(t, DeliverStep(Client))
  {
    var s := Start(3, o);
    var t0, cw := HostLeaves(o);
    ExtendIsSent(t0, 1);
    ReachesNext(s, t0, ClickStep(Client, 1), false);
    t := TurnIsSent(s, Next(t0, ClickStep(Client, 1)), ButtonByte(1));
    TurnOnTheWay(t);
  }
}
