/**
 Two PCs joined by a serial line, as a transition system. The line is reliable and
 first-in first-out in each direction; everything else may happen in any order.
 `delivered` and `log` only record history.
 */
module TwoPcRuns {
  import opened Consts
  import opened TwoPcRules

  datatype Side = Host | Client

  function Other(x: Side): Side {
    if x == Host then Client else Host
  }

  /** A PC and its outgoing line: the bytes on the wire, oldest first, and those that arrived. */
  datatype Node = Node(peer: Peer, wire: seq<byte>, delivered: seq<byte>)

  /** A byte that was given to the port, during the handshake (`setup`) or by the game. */
  datatype Sent = Sent(from: Side, data: byte, setup: bool)

  datatype System = System(host: Node, client: Node, log: seq<Sent>)

  function At(s: System, x: Side): Node {
    if x == Host then s.host else s.client
  }

  function Put(s: System, x: Side, n: Node): System {
    if x == Host then s.(host := n) else s.(client := n)
  }

  function GameAt(s: System, x: Side): Game {
    At(s, x).peer.game
  }

  // ---------------------------------------------------------------- bytes under way

  /** The bytes that wait in the port: the register first, then the queue. */
  function Held(u: Uart): seq<byte> {
    (if u.thr.Some? then [u.thr.value] else []) + (if u.hasData then [u.data] else [])
  }

  /** The bytes `x` has sent and the other side has not received, oldest first. */
  function InFlight(s: System, x: Side): seq<byte> {
    At(s, x).wire + Held(At(s, x).peer.uart)
  }

  function Room(u: Uart): nat {
    if u.hasData then 0 else if u.thr.Some? then 1 else 2
  }

  /** Exactly when the port neither drops, overwrites nor overtakes a byte. */
  lemma SendingKeepsOrder(u: Uart, bytes: Burst)
    ensures Held(SendAll(u, bytes)) == Held(u) + bytes
            <==> |bytes| <= Room(u) || (u.hasData && u.thr.None? && bytes == [u.data])
  {
    if Held(SendAll(u, bytes)) == Held(u) + bytes && u.hasData && u.thr.None? && |bytes| == 1 {
      assert (Held(u) + bytes)[0] == u.data;
    }
    if |bytes| <= Room(u) {
      assert bytes == if |bytes| == 0 then [] else if |bytes| == 1 then [bytes[0]] else [bytes[0], bytes[1]];
    }
  }

  /** When they do not fit: a byte already queued is overwritten, and a queued byte that finds the register full is lost. */
  lemma FullPort(u: Uart, data: byte)
    requires u.thr.Some?
    ensures Held(Send(u, data)) == [u.thr.value, data]
    ensures Held(UartReady(u)) == [u.thr.value]
  {
  }

  // ---------------------------------------------------------------- steps and runs

  datatype Step =
    | ClickStep(who: Side, click: Click)
    | TickStep(who: Side, lowest: int)   // `lowest` is the fifth score on the leaderboard of `who`
    | EnterStep(who: Side, lowest: int)  // the ENTER key
    | DrainStep(who: Side)      // the register's byte goes onto the wire
    | ThrEmptyStep(who: Side)   // the "transmitter empty" interrupt
    | DeliverStep(from: Side)   // the oldest byte on the wire is received

  function Record(log: seq<Sent>, x: Side, bytes: Burst, setup: bool): seq<Sent> {
    if |bytes| == 0 then log
    else if |bytes| == 1 then log + [Sent(x, bytes[0], setup)]
    else log + [Sent(x, bytes[0], setup)] + [Sent(x, bytes[1], setup)]
  }

  function Act(s: System, x: Side, r: (Peer, Burst)): System {
    Put(s, x, At(s, x).(peer := r.0))
    .(log := Record(s.log, x, r.1, !At(s, x).peer.gameStarted))
  }

  /** Before its game is reset, a tick would make a connecting client lose (see `EarlyTicksLose`). */
  predicate GameIsReset(p: Peer) {
    p.gameStarted || p.game.isHost || p.receivedNoBytes >= 2
  }

  /** A click, a tick or a key, as an event of the main loop. */
  function LocalEventOf(step: Step): Event
    requires step.ClickStep? || step.TickStep? || step.EnterStep?
  {
    match step
    case ClickStep(_, c) => Mouse(c)
    case TickStep(_, _) => Rtc
    case EnterStep(_, _) => Enter
  }

  function Lowest(step: Step): int {
    if step.TickStep? || step.EnterStep? then step.lowest else 0
  }

  /** What the environment allows: in particular a local event finds room for its bytes in the port. */
  predicate Enabled(s: System, step: Step) {
    match step
    case DrainStep(x) => At(s, x).peer.uart.thr.Some?
    case ThrEmptyStep(x) => At(s, x).peer.uart.thr.None?
    case DeliverStep(x) => At(s, x).wire != []
    case _ =>
      var p := At(s, step.who).peer;
      && (step.ClickStep? || GameIsReset(p))
      && |Handle(p, LocalEventOf(step), Lowest(step)).1| <= Room(p.uart)
  }

  function Next(s: System, step: Step): System
    requires Enabled(s, step)
  {
    match step
    case DrainStep(x) =>
      var n := At(s, x);
      Put(s, x, n.(peer := n.peer.(uart := n.peer.uart.(thr := None)),
                   wire := n.wire + [n.peer.uart.thr.value]))
    case ThrEmptyStep(x) => Act(s, x, Handle(At(s, x).peer, ThrEmpty, 0))
    case DeliverStep(x) =>
      var n := At(s, x);
      var taken := Put(s, x, n.(wire := n.wire[1..], delivered := n.delivered + [n.wire[0]]));
      Act(taken, Other(x), Handle(At(s, Other(x)).peer, Received(n.wire[0]), 0))
    case _ => Act(s, step.who, Handle(At(s, step.who).peer, LocalEventOf(step), Lowest(step)))
  }

  /** The step that ends a VS turn opened by the client (see `ClientVsTurnBreaksAgreement`). */
  predicate EndsClientVsTurn(s: System, step: Step) {
    var g := GameAt(s, Client);
    step.TickStep? && step.who == Client && MyTurn(g) && !g.gameEnd && g.timeLeft == 0 && g.isVsRound && g.vsWasPressed
  }

  ghost predicate IsRun(s: System, steps: seq<Step>)
    decreases |steps|
  {
    steps == [] || (Enabled(s, steps[0]) && IsRun(Next(s, steps[0]), steps[1..]))
  }

  ghost function Run(s: System, steps: seq<Step>): System
    requires IsRun(s, steps)
    decreases |steps|
  {
    if steps == [] then s else Run(Next(s, steps[0]), steps[1..])
  }

  /** No step of the run ends a VS turn of the client. */
  ghost predicate NoClientVsEnd(s: System, steps: seq<Step>)
    requires IsRun(s, steps)
    decreases |steps|
  {
    steps == [] || (!EndsClientVsTurn(s, steps[0]) && NoClientVsEnd(Next(s, steps[0]), steps[1..]))
  }

  /** The first session of a PC: the counters of the handshake are still zero. */
  predicate FirstSession(p: Peer) {
    p.receivedNoBytes == 0 && p.numRoundSentBytes == 0 && p.uart.thr.None?
  }

  /**
   How two PCs begin: `host` and `client` are the PCs as they were before. If the client connected
   `early`, its byte came to a PC that was not hosting yet, on another screen, and was dropped.
   */
  datatype Opening = Opening(host: Peer, client: Peer, early: bool)

  predicate IsFirst(o: Opening) {
    FirstSession(o.host) && FirstSession(o.client)
  }

  /** One PC hosts a game of `rounds` rounds, the other has connected; both are on the game's screen. */
  function Start(rounds: nat, o: Opening): System {
    var h, c := HostMpGame(o.host, rounds).(screen := PlayScreen), ConnectMpGame(o.client).(screen := PlayScreen);
    System(Node(h, [], []),
           if o.early then Node(c.(uart := c.uart.(thr := None)), [], [2]) else Node(c, [], []),
           [Sent(Client, 2, true)])
  }

  /** From `s` a run leads to `t`; `inStep` asks that no VS turn of the client ends on the way. */
  ghost predicate Reaches(s: System, t: System, inStep: bool) {
    exists steps :: IsRun(s, steps) && (inStep ==> NoClientVsEnd(s, steps)) && t == Run(s, steps)
  }

  lemma {:induction false} RunsJoin(s: System, a: seq<Step>, b: seq<Step>)
    requires IsRun(s, a) && IsRun(Run(s, a), b)
    ensures IsRun(s, a + b) && Run(s, a + b) == Run(Run(s, a), b)
    decreases |a|
  {
    if a == [] {
      assert a + b == b;
    } else {
      assert (a + b)[0] == a[0] && (a + b)[1..] == a[1..] + b;
      RunsJoin(Next(s, a[0]), a[1..], b);
    }
  }

  lemma {:induction false} NoClientVsEndJoins(s: System, a: seq<Step>, b: seq<Step>)
    requires IsRun(s, a) && IsRun(Run(s, a), b) && IsRun(s, a + b)
    requires NoClientVsEnd(s, a) && NoClientVsEnd(Run(s, a), b)
    ensures NoClientVsEnd(s, a + b)
    decreases |a|
  {
    if a == [] {
      assert a + b == b;
    } else {
      assert (a + b)[0] == a[0] && (a + b)[1..] == a[1..] + b;
      NoClientVsEndJoins(Next(s, a[0]), a[1..], b);
    }
  }

  lemma ReachesOn(s: System, t: System, u: System, inStep: bool)
    requires Reaches(s, t, inStep) && Reaches(t, u, inStep)
    ensures Reaches(s, u, inStep)
  {
    var a :| IsRun(s, a) && (inStep ==> NoClientVsEnd(s, a)) && t == Run(s, a);
    var b :| IsRun(t, b) && (inStep ==> NoClientVsEnd(t, b)) && u == Run(t, b);
    RunsJoin(s, a, b);
    if inStep {
      NoClientVsEndJoins(s, a, b);
    }
  }

  lemma ReachesNext(s: System, t: System, step: Step, inStep: bool)
    requires Reaches(s, t, inStep) && Enabled(t, step) && (inStep ==> !EndsClientVsTurn(t, step))
    ensures Reaches(s, Next(t, step), inStep)
  {
    assert [step][1..] == [];
    assert IsRun(Next(t, step), []) && NoClientVsEnd(Next(t, step), []);
    assert IsRun(t, [step]);
    assert Run(t, [step]) == Run(Next(t, step), []) == Next(t, step);
    assert inStep ==> NoClientVsEnd(t, [step]);
    ReachesOn(s, t, Next(t, step), inStep);
  }

  lemma ReachesItself(s: System, inStep: bool)
    ensures Reaches(s, s, inStep)
  {
    assert IsRun(s, []) && NoClientVsEnd(s, []) && Run(s, []) == s;
  }

  // ---------------------------------------------------------------- agreement of the two replicas

  predicate Tied(g: Game) {
    g.gameEnd && g.ws == Tie
  }

  /** `r`, on the other PC, is a copy of `g`; a tie is the one thing it is not told. */
  predicate Agree(g: Game, r: Game) {
    && r.isHost != g.isHost
    && r.buttons == g.buttons
    && r.guessed == g.guessed
    && r.isPlayer1 == g.isPlayer1
    && r.isVsRound == g.isVsRound
    && r.vsWasPressed == g.vsWasPressed
    && r.maxButtonsSize == g.maxButtonsSize
    && (if Tied(g) then !r.gameEnd
        else r.playerScore == g.playerScore && r.gameEnd == g.gameEnd && (g.gameEnd ==> r.ws == g.ws))
  }

  /** The game of a PC once it has received `bytes`. */
  function Replay(g: Game, bytes: seq<byte>): Game
    decreases |bytes|
  {
    if bytes == [] then g else Replay(PlayGame(g, bytes[0]).game, bytes[1..])
  }

  lemma {:induction false} ReplayAppend(g: Game, a: seq<byte>, b: seq<byte>)
    ensures Replay(g, a + b) == Replay(Replay(g, a), b)
    decreases |a|
  {
    if a == [] {
      assert a + b == b;
    } else {
      assert (a + b)[1..] == a[1..] + b;
      ReplayAppend(PlayGame(g, a[0]).game, a[1..], b);
    }
  }

  lemma ReplayBurst(g: Game, a: byte, b: byte)
    ensures Replay(g, [a]) == PlayGame(g, a).game
    ensures Replay(g, [a, b]) == PlayGame(PlayGame(g, a).game, b).game
  {
    assert [a, b] == [a] + [b];
    ReplayAppend(g, [a], [b]);
  }

  /** Adding a button, as the other PC sees it. */
  lemma LongerReplays(g: Game, click: Click, r: Game)
    requires MyTurn(g) && !g.gameEnd && g.isVsRound && Agree(g, r) && click != NO_BUTTON
    requires Classify(g, click) in {Bonus, StartVs, Extend}
    ensures var e := LocalClick(g, click); Agree(e.game, Replay(r, e.bytes))
  {
    var e := LocalClick(g, click);
    ReplayBurst(r, ButtonByte(click), TurnByte(g));
    var r1 := RemoteClick(r, click);
    assert PlayGame(r, ButtonByte(click)).game == r1;
    if Classify(g, click) == Extend {
      assert e.bytes == [ButtonByte(click), TurnByte(g)];
      assert PlayGame(r1, TurnByte(g)).game == TurnReceived(r1, true);
    } else {
      assert e.bytes == [ButtonByte(click)];
    }
  }

  /** The bytes of a click tell the other PC all that the click did. */
  lemma ClickReplays(g: Game, click: Click, r: Game)
    requires MyTurn(g) && !g.gameEnd && g.isVsRound && Agree(g, r)
    ensures var e := LocalClick(g, click); Agree(e.game, Replay(r, e.bytes))
  {
    var e := LocalClick(g, click);
    if click == NO_BUTTON {
    } else if Classify(g, click) in {Bonus, StartVs, Extend} {
      LongerReplays(g, click, r);
    } else {
      assert e.bytes == [e.bytes[0]];
      ReplayBurst(r, e.bytes[0], 0);
    }
  }

  /** So do the bytes of a tick, exactly when the tick does not end a VS turn of the client. */
  lemma TickReplays(g: Game, r: Game)
    requires MyTurn(g) && !g.gameEnd && Agree(g, r)
    ensures var e := Tick(g);
            Agree(e.game, Replay(r, e.bytes))
            <==> !(!g.isHost && g.timeLeft == 0 && g.isVsRound && g.vsWasPressed)
  {
    var e := Tick(g);
    if |e.bytes| == 1 {
      ReplayBurst(r, e.bytes[0], 0);
      assert e.bytes == [e.bytes[0]];
    }
  }

  // ---------------------------------------------------------------- invariants

  /** The game's variables right after a reset. */
  predicate Fresh(g: Game, rounds: nat) {
    g == Game(g.isHost, true, [], rounds, 0, 0, -1, true, false, false, g.ws)
  }

  function SizeBytes(rounds: nat): seq<byte> {
    [SizeByte(rounds, 0), SizeByte(rounds, 1)]
  }

  /** Until the host has the acknowledgement. */
  ghost predicate Setup(s: System, rounds: nat) {
    var h, c := s.host.peer, s.client.peer;
    && !h.gameStarted && h.game.isHost && !c.game.isHost
    && h.screen == PlayScreen && c.screen == PlayScreen
    && Fresh(h.game, rounds)
    && !h.uart.hasData && !c.uart.hasData
    && c.receivedNoBytes <= h.numRoundSentBytes <= 2
    && InFlight(s, Host) == SizeBytes(rounds)[c.receivedNoBytes..h.numRoundSentBytes]
    && (c.receivedNoBytes == 1 ==> c.receivedByte == SizeByte(rounds, 0))
    && (c.receivedNoBytes == 2 ==> Fresh(c.game, rounds % 256))
    && (if c.gameStarted
        then c.receivedNoBytes == 2 && (InFlight(s, Client) == [2, 0] || InFlight(s, Client) == [0])
        else InFlight(s, Client) == [2] || InFlight(s, Client) == [])
    && forall i :: 0 <= i < |s.log| ==> s.log[i].setup
  }

  function TurnByte(g: Game): byte {
    if g.isHost then 9 else 11
  }

  function EndByte(w: Winner): byte {
    if w == Tie then 13 else 12
  }

  predicate IsEndByte(e: Sent) {
    !e.setup && (e.data == 12 || e.data == 13)
  }

  /**
   Buttons, and after them at most the byte that ends the sender's turn or game. The byte that
   hands the turn over is missing only if it reached a PC that had left the screen (`lost`).
   */
  predicate FlightShape(g: Game, bytes: seq<byte>, lost: bool) {
    && (forall i :: 0 <= i < |bytes| - 1 ==> IsButton(bytes[i]))
    && (if g.gameEnd then MyTurn(g) && (bytes != [] ==> bytes[|bytes| - 1] == EndByte(g.ws))
        else if MyTurn(g) then bytes != [] ==> IsButton(bytes[|bytes| - 1])
        else (bytes == [] ==> lost) && (bytes != [] ==> bytes[|bytes| - 1] == TurnByte(g)))
  }

  predicate Announced(log: seq<Sent>) {
    log != [] && IsEndByte(log[|log| - 1])
  }

  /** An end byte can only be the very last byte of the game, and says how the game ended. */
  predicate LogShape(log: seq<Sent>, x: Side, g: Game) {
    && (forall i :: 0 <= i < |log| - 1 ==> !IsEndByte(log[i]))
    && (Announced(log) ==>
          && log[|log| - 1] == Sent(x, EndByte(g.ws), false)
          && g.gameEnd && (g.ws == Tie || g.ws == Opponent(g.isPlayer1)))
  }

  predicate HasLeft(p: Peer) {
    p.screen != PlayScreen
  }

  /** Who knows of an announced end; a game that ended without any announcement is a tie. */
  predicate EndsKnown(g: Game, q: Game, announced: bool, quiet: bool, lost: bool) {
    && (q.gameEnd ==> q.ws == Tie || (announced && quiet && q.ws == g.ws))
    && (g.gameEnd && !announced ==> g.ws == Tie)
    && (announced && g.ws != Tie && quiet ==> q.gameEnd && (lost || q.ws == g.ws))
  }

  /** The games of the two PCs; `fl` is on its way from `g`, which holds the turn or held it last. */
  predicate Exchange(g: Game, q: Game, fl: seq<byte>, lost: bool, log: seq<Sent>, x: Side) {
    && g.isHost == (x == Host) && q.isHost != g.isHost
    && g.isVsRound && !MyTurn(q)
    && FlightShape(g, fl, lost)
    && LogShape(log, x, g)
    && EndsKnown(g, q, Announced(log), fl == [], lost)
  }

  /** Both play; `x` is the side that holds the turn or was the last to hold it. Holds on every run. */
  ghost predicate Talking(s: System, x: Side) {
    var p, q := At(s, x).peer, At(s, Other(x)).peer;
    && p.gameStarted && q.gameStarted
    && (HasLeft(p) ==> p.game.gameEnd) && (HasLeft(q) ==> q.game.gameEnd)
    && InFlight(s, Other(x)) == []
    && Exchange(p.game, q.game, InFlight(s, x), HasLeft(q), s.log, x)
  }

  /** Only the last of the bytes can end the receiver's game. */
  ghost predicate EndsAtLast(g: Game, bytes: seq<byte>) {
    bytes != [] ==> !Replay(g, bytes[..|bytes| - 1]).gameEnd
  }

  lemma {:induction false} EndPersists(g: Game, bytes: seq<byte>)
    ensures g.gameEnd ==> Replay(g, bytes).gameEnd
    decreases |bytes|
  {
    if bytes != [] {
      EndPersists(PlayGame(g, bytes[0]).game, bytes[1..]);
    }
  }

  /** With `bytes` still to come, `q` agrees with `g`, the game of the player at turn. */
  ghost predicate Follows(g: Game, q: Game, bytes: seq<byte>) {
    Agree(g, Replay(q, bytes)) && EndsAtLast(q, bytes)
  }

  /** The two replicas are in step as well: as long as no VS turn of the client has ended. */
  ghost predicate Playing(s: System, x: Side) {
    Talking(s, x) && Follows(GameAt(s, x), GameAt(s, Other(x)), InFlight(s, x))
  }

  /** All bytes `x` gave to its port, oldest first. */
  function Issued(log: seq<Sent>, x: Side): seq<byte> {
    if log == [] then []
    else
      var last := log[|log| - 1];
      Issued(log[..|log| - 1], x) + (if last.from == x then [last.data] else [])
  }

  /** What `x` gave to its port is what arrived and what is still under way, in this order. */
  predicate InOrder(s: System, x: Side) {
    Issued(s.log, x) == At(s, x).delivered + InFlight(s, x)
  }

  predicate Ordered(s: System) {
    InOrder(s, Host) && InOrder(s, Client)
  }

  predicate Sizes(s: System, rounds: nat) {
    GameAt(s, Host).maxButtonsSize == rounds && GameAt(s, Client).maxButtonsSize == rounds % 256
  }

  /** On every run, for any number of rounds. */
  ghost predicate Invariant(s: System, rounds: nat) {
    && Ordered(s)
    && (Setup(s, rounds) || (Sizes(s, rounds) && (Talking(s, Host) || Talking(s, Client))))
  }

  /** On the runs where no VS turn of the client has ended, if the number of rounds fits a byte. */
  ghost predicate InStep(s: System, rounds: nat) {
    Setup(s, rounds) || Playing(s, Host) || Playing(s, Client)
  }

  // ---------------------------------------------------------------- one step keeps the invariant

  lemma RecordIssued(log: seq<Sent>, x: Side, bytes: Burst, setup: bool, y: Side)
    ensures Issued(Record(log, x, bytes, setup), y) == Issued(log, y) + (if x == y then bytes else [])
  {
    if |bytes| >= 1 {
      var one := log + [Sent(x, bytes[0], setup)];
      assert one[..|one| - 1] == log;
      if |bytes| == 2 {
        var two := one + [Sent(x, bytes[1], setup)];
        assert two[..|two| - 1] == one;
      }
    }
  }

  lemma ActParts(s: System, x: Side, r: (Peer, Burst))
    ensures var s' := Act(s, x, r);
            && At(s', x) == At(s, x).(peer := r.0)
            && At(s', Other(x)) == At(s, Other(x))
            && s'.log == Record(s.log, x, r.1, !At(s, x).peer.gameStarted)
  {
  }

  /** A local event of `x` that finds room only appends its bytes to what is in flight. */
  lemma LocalFlight(s: System, x: Side, p': Peer, bytes: Burst)
    requires p'.uart == SendAll(At(s, x).peer.uart, bytes)
    requires |bytes| <= Room(At(s, x).peer.uart)
    ensures var s' := Act(s, x, (p', bytes));
            InFlight(s', x) == InFlight(s, x) + bytes && InFlight(s', Other(x)) == InFlight(s, Other(x))
  {
    SendingKeepsOrder(At(s, x).peer.uart, bytes);
    var w, h := At(s, x).wire, Held(At(s, x).peer.uart);
    assert w + (h + bytes) == w + h + bytes;
  }

  /** If its new bytes follow those in flight, they also follow those issued before. */
  lemma LocalOrder(s: System, s': System, x: Side, bytes: Burst, setup: bool, y: Side)
    requires InOrder(s, y) && s'.log == Record(s.log, x, bytes, setup)
    requires At(s', y).delivered == At(s, y).delivered
    requires InFlight(s', y) == InFlight(s, y) + if x == y then bytes else []
    ensures InOrder(s', y)
  {
    var d, fl, more: seq<byte> := At(s, y).delivered, InFlight(s, y), if x == y then bytes else [];
    RecordIssued(s.log, x, bytes, setup, y);
    assert d + fl + more == d + (fl + more);
  }

  lemma LocalEvent(s: System, x: Side, p': Peer, bytes: Burst)
    requires p'.uart == SendAll(At(s, x).peer.uart, bytes)
    requires |bytes| <= Room(At(s, x).peer.uart)
    ensures var s' := Act(s, x, (p', bytes));
            && InFlight(s', x) == InFlight(s, x) + bytes
            && InFlight(s', Other(x)) == InFlight(s, Other(x))
            && (Ordered(s) ==> Ordered(s'))
  {
    var s', setup := Act(s, x, (p', bytes)), !At(s, x).peer.gameStarted;
    ActParts(s, x, (p', bytes));
    LocalFlight(s, x, p', bytes);
    if Ordered(s) {
      LocalOrder(s, s', x, bytes, setup, x);
      LocalOrder(s, s', x, bytes, setup, Other(x));
    }
  }

  /** What an event of the player at turn may send. */
  predicate TurnEffect(g: Game, e: Effect) {
    && FlightShape(e.game, e.bytes, false)
    && (e.game.gameEnd ==> e.bytes == [EndByte(e.game.ws)]
                           && (e.game.ws == Tie || e.game.ws == Opponent(e.game.isPlayer1)))
    && e.game.isHost == g.isHost && e.game.isVsRound
  }

  lemma LocalTurnEffect(g: Game, click: Click)
    requires MyTurn(g) && !g.gameEnd && g.isVsRound
    ensures TurnEffect(g, LocalClick(g, click)) && TurnEffect(g, Tick(g))
  {
  }

  lemma TurnEffectAppends(g: Game, fl: seq<byte>, e: Effect, log: seq<Sent>, x: Side)
    requires MyTurn(g) && !g.gameEnd && TurnEffect(g, e)
    ensures forall lost :: FlightShape(g, fl, lost) ==> FlightShape(e.game, fl + e.bytes, lost)
    ensures LogShape(log, x, g) ==> LogShape(Record(log, x, e.bytes, false), x, e.game)
    ensures LogShape(log, x, g) && Announced(Record(log, x, e.bytes, false)) ==> fl + e.bytes != []
  {
    if |e.bytes| == 0 {
      assert fl + e.bytes == fl;
    }
  }

  lemma EndsAtLastAppend(q: Game, fl: seq<byte>, bytes: Burst)
    requires !Replay(q, fl).gameEnd && EndsAtLast(q, fl)
    requires |bytes| == 2 ==> !Replay(q, fl + bytes).gameEnd
    ensures EndsAtLast(q, fl + bytes)
  {
    var all := fl + bytes;
    if |bytes| == 0 {
      assert all == fl;
    } else if |bytes| == 1 {
      assert all[..|all| - 1] == fl;
    } else {
      var most := all[..|all| - 1];
      assert all == most + [bytes[1]];
      ReplayAppend(q, most, [bytes[1]]);
      EndPersists(Replay(q, most), [bytes[1]]);
    }
  }

  /** The player at turn acts. */
  lemma TurnHolderActs(s: System, x: Side, e: Effect)
    requires Talking(s, x) && Ordered(s)
    requires MyTurn(GameAt(s, x)) && !GameAt(s, x).gameEnd && TurnEffect(GameAt(s, x), e)
    requires |e.bytes| <= Room(At(s, x).peer.uart)
    ensures var s' := Act(s, x, (Emit(At(s, x).peer, e), e.bytes));
            && Talking(s', x) && Ordered(s')
            && GameAt(s', x) == e.game && GameAt(s', Other(x)) == GameAt(s, Other(x))
            && InFlight(s', x) == InFlight(s, x) + e.bytes
  {
    var p := At(s, x).peer;
    ActParts(s, x, (Emit(p, e), e.bytes));
    LocalEvent(s, x, Emit(p, e), e.bytes);
    TurnEffectAppends(p.game, InFlight(s, x), e, s.log, x);
  }

  /** If the other replica followed before, it follows after it has received the new bytes. */
  lemma StillFollows(g: Game, q: Game, fl: seq<byte>, e: Effect)
    requires Follows(g, q, fl) && MyTurn(g) && !g.gameEnd && TurnEffect(g, e)
    requires Agree(e.game, Replay(Replay(q, fl), e.bytes))
    ensures Follows(e.game, q, fl + e.bytes)
  {
    ReplayAppend(q, fl, e.bytes);
    EndsAtLastAppend(q, fl, e.bytes);
  }

  /** The same PC but for the places where its bytes are. */
  predicate Alike(s: System, s': System, x: Side) {
    && InFlight(s', x) == InFlight(s, x) && At(s', x).delivered == At(s, x).delivered
    && At(s', x).peer == At(s, x).peer.(uart := At(s', x).peer.uart)
    && (At(s', x).peer.uart.hasData ==> At(s, x).peer.uart.hasData)
  }

  lemma DrainMoves(s: System, y: Side, x: Side)
    requires At(s, y).peer.uart.thr.Some?
    ensures Alike(s, Next(s, DrainStep(y)), x) && Next(s, DrainStep(y)).log == s.log
  {
    var w, h := At(s, y).wire, Held(At(s, y).peer.uart);
    assert w + h == w + [h[0]] + h[1..];
  }

  lemma QueueMovesOn(s: System, y: Side, x: Side)
    requires At(s, y).peer.uart.thr.None? && At(s, y).peer.gameStarted
    ensures Alike(s, Next(s, ThrEmptyStep(y)), x) && Next(s, ThrEmptyStep(y)).log == s.log
  {
  }

  /** Register and wire hand a byte on; nothing else changes. */
  lemma PortMoves(s: System, step: Step, x: Side)
    requires Enabled(s, step)
    requires step.DrainStep? || (step.ThrEmptyStep? && At(s, step.who).peer.gameStarted)
    ensures Alike(s, Next(s, step), x) && Next(s, step).log == s.log
  {
    if step.DrainStep? {
      DrainMoves(s, step.who, x);
    } else {
      QueueMovesOn(s, step.who, x);
    }
  }

  lemma AlikeStays(s: System, s': System, x: Side)
    requires Alike(s, s', x) && Alike(s, s', Other(x)) && s'.log == s.log
    ensures Talking(s, x) ==> Talking(s', x)
    ensures Playing(s, x) ==> Playing(s', x)
    ensures Ordered(s) ==> Ordered(s')
  {
  }

  function Taken(s: System, x: Side): System
    requires At(s, x).wire != []
  {
    var n := At(s, x);
    Put(s, x, n.(wire := n.wire[1..], delivered := n.delivered + [n.wire[0]]))
  }

  /** The oldest byte in flight is the one that arrives. */
  lemma ByteTaken(s: System, x: Side)
    requires At(s, x).wire != []
    ensures InFlight(s, x) != [] && At(s, x).wire[0] == InFlight(s, x)[0]
    ensures InFlight(Taken(s, x), x) == InFlight(s, x)[1..]
    ensures InFlight(Taken(s, x), Other(x)) == InFlight(s, Other(x))
    ensures Ordered(s) ==> Ordered(Taken(s, x))
  {
    var d, w, h := At(s, x).delivered, At(s, x).wire, Held(At(s, x).peer.uart);
    assert d + (w + h) == d + [w[0]] + (w[1..] + h);
  }

  /** The receiver does what its handler says, with room for what it sends. */
  lemma DeliverParts(s: System, x: Side, r: (Peer, Burst))
    requires At(s, x).wire != [] && Handle(At(s, Other(x)).peer, Received(At(s, x).wire[0]), 0) == r
    requires r.0.uart == SendAll(At(s, Other(x)).peer.uart, r.1) && |r.1| <= Room(At(s, Other(x)).peer.uart)
    ensures var s' := Next(s, DeliverStep(x));
            && At(s', x).peer == At(s, x).peer && At(s', Other(x)).peer == r.0
            && InFlight(s, x) != [] && At(s, x).wire[0] == InFlight(s, x)[0]
            && InFlight(s', x) == InFlight(s, x)[1..]
            && InFlight(s', Other(x)) == InFlight(s, Other(x)) + r.1
            && s'.log == Record(s.log, Other(x), r.1, !At(s, Other(x)).peer.gameStarted)
            && (Ordered(s) ==> Ordered(s'))
  {
    ByteTaken(s, x);
    ActParts(Taken(s, x), Other(x), r);
    LocalEvent(Taken(s, x), Other(x), r.0, r.1);
  }

  /** A received byte is the turn, or leaves the receiver without it; nothing is sent in reply. */
  lemma ByteReceived(g: Game, q: Game, fl: seq<byte>, log: seq<Sent>, x: Side)
    requires Exchange(g, q, fl, false, log, x) && fl != []
    ensures var e := PlayGame(q, fl[0]);
            && e.bytes == []
            && (if fl[0] == TurnByte(g) then fl[1..] == [] && Exchange(e.game, g, [], false, log, Other(x))
                else Exchange(g, e.game, fl[1..], false, log, x))
  {
    var e := PlayGame(q, fl[0]);
    if IsButton(fl[0]) {
      assert fl[0] != TurnByte(g);
      assert |fl| == 1 ==> !g.gameEnd;
    } else {
      assert fl == [fl[0]];
    }
  }

  /** A byte that is dropped. */
  lemma ByteIgnored(g: Game, q: Game, fl: seq<byte>, log: seq<Sent>, x: Side)
    requires Exchange(g, q, fl, true, log, x) && fl != [] && q.gameEnd
    ensures Exchange(g, q, fl[1..], true, log, x)
  {
  }

  /** In the first case the roles change, and the replicas still agree. */
  lemma ByteFollowed(g: Game, q: Game, fl: seq<byte>)
    requires q.isHost != g.isHost && !MyTurn(q) && FlightShape(g, fl, false) && fl != [] && Follows(g, q, fl)
    ensures var q' := PlayGame(q, fl[0]).game;
            if fl[0] == TurnByte(g) then Follows(q', g, []) else Follows(g, q', fl[1..])
    ensures !q.gameEnd
  {
    var q' := PlayGame(q, fl[0]).game;
    EndPersists(q, fl[..|fl| - 1]);
    if |fl| > 1 {
      var most := fl[..|fl| - 1];
      assert most[0] == fl[0] && most[1..] == fl[1..][..|fl| - 2];
      EndPersists(q', fl[1..][..|fl| - 2]);
    }
  }

  /** The step hands the turn to `Other(x)`. */
  predicate TurnArrives(s: System, x: Side, step: Step) {
    step == DeliverStep(x) && At(s, x).wire != [] && At(s, x).wire[0] == TurnByte(GameAt(s, x))
  }

  /** The side that holds the turn after the step, or was the last to hold it. */
  function NextHolder(s: System, x: Side, step: Step): Side {
    if TurnArrives(s, x, step) && !HasLeft(At(s, Other(x)).peer) then Other(x) else x
  }

  /** A byte for a PC that has left the screen is taken from the line, and that is all. */
  lemma ByteDropped(s: System, x: Side)
    requires Talking(s, x) && Ordered(s) && At(s, x).wire != [] && HasLeft(At(s, Other(x)).peer)
    ensures var s' := Next(s, DeliverStep(x)); Ordered(s') && Talking(s', x)
    ensures GameAt(Next(s, DeliverStep(x)), x) == GameAt(s, x)
    ensures GameAt(Next(s, DeliverStep(x)), Other(x)) == GameAt(s, Other(x))
  {
    DeliverParts(s, x, (At(s, Other(x)).peer, []));
    ByteIgnored(GameAt(s, x), GameAt(s, Other(x)), InFlight(s, x), s.log, x);
  }

  /** A byte for a PC that is on the screen. */
  lemma Delivery(s: System, x: Side)
    requires Talking(s, x) && Ordered(s) && At(s, x).wire != [] && !HasLeft(At(s, Other(x)).peer)
    ensures var s', fl := Next(s, DeliverStep(x)), InFlight(s, x);
            && Ordered(s') && Talking(s', NextHolder(s, x, DeliverStep(x)))
            && fl != [] && At(s, x).wire[0] == fl[0]
            && GameAt(s', x) == GameAt(s, x) && InFlight(s', x) == fl[1..]
            && GameAt(s', Other(x)) == PlayGame(GameAt(s, Other(x)), fl[0]).game
            && InFlight(s', Other(x)) == []
  {
    var q, b := At(s, Other(x)).peer, At(s, x).wire[0];
    ByteTaken(s, x);
    ByteReceived(GameAt(s, x), q.game, InFlight(s, x), s.log, x);
    DeliverParts(s, x, (Emit(q, PlayGame(q.game, b)), []));
  }

  /** A click or a tick of the player at turn, in a running game. */
  predicate ActsAtTurn(s: System, x: Side, step: Step) {
    (step.ClickStep? || step.TickStep?) && step.who == x && MyTurn(GameAt(s, x)) && !GameAt(s, x).gameEnd
  }

  function TurnEffectOf(g: Game, step: Step): Effect
    requires step.ClickStep? || step.TickStep?
  {
    if step.ClickStep? then LocalClick(g, step.click) else Tick(g)
  }

  lemma LocalStep(s: System, x: Side, step: Step)
    requires Talking(s, x) && ActsAtTurn(s, x, step) && Enabled(s, step)
    ensures var e, p := TurnEffectOf(GameAt(s, x), step), At(s, x).peer;
            && TurnEffect(GameAt(s, x), e)
            && |e.bytes| <= Room(p.uart)
            && Next(s, step) == Act(s, x, (Emit(p, e), e.bytes))
  {
    LocalTurnEffect(GameAt(s, x), if step.ClickStep? then step.click else 0);
  }

  lemma PortStep(s: System, x: Side, step: Step)
    requires Talking(s, x) && Ordered(s) && Enabled(s, step)
    requires step.DrainStep? || step.ThrEmptyStep?
    ensures var s' := Next(s, step);
            && GameAt(s', x) == GameAt(s, x) && InFlight(s', x) == InFlight(s, x)
            && Ordered(s') && Talking(s', x)
            && (Playing(s, x) ==> Playing(s', x))
  {
    PortMoves(s, step, x);
    PortMoves(s, step, Other(x));
    AlikeStays(s, Next(s, step), x);
  }

  lemma ExchangeWhenLost(g: Game, q: Game, fl: seq<byte>, lost: bool, log: seq<Sent>, x: Side)
    requires Exchange(g, q, fl, lost, log, x)
    ensures Exchange(g, q, fl, true, log, x)
  {
  }

  /** Leaving the screen after the game disturbs nothing. */
  lemma ScreenStep(s: System, x: Side, y: Side, screen: Screen)
    requires Talking(s, x) && GameAt(s, y).gameEnd && screen != PlayScreen
    ensures var s' := Put(s, y, At(s, y).(peer := At(s, y).peer.(screen := screen)));
            && GameAt(s', x) == GameAt(s, x) && InFlight(s', x) == InFlight(s, x)
            && Talking(s', x) && (Playing(s, x) ==> Playing(s', x))
            && (Ordered(s) ==> Ordered(s'))
  {
    var s' := Put(s, y, At(s, y).(peer := At(s, y).peer.(screen := screen)));
    ExchangeWhenLost(GameAt(s, x), GameAt(s, Other(x)), InFlight(s, x), HasLeft(At(s, Other(x)).peer), s.log, x);
    forall z ensures GameAt(s', z) == GameAt(s, z) && InFlight(s', z) == InFlight(s, z)
                     && At(s', z).delivered == At(s, z).delivered && At(s', z).peer.gameStarted == At(s, z).peer.gameStarted
    {
    }
  }

  /** Any other click, tick or key can only make a PC whose game has ended leave the screen. */
  lemma IdleEvent(s: System, x: Side, step: Step)
    requires Talking(s, x) && Enabled(s, step)
    requires step.ClickStep? || step.TickStep? || step.EnterStep?
    requires !ActsAtTurn(s, x, step)
    ensures var n, s' := At(s, step.who), Next(s, step);
            var screen := At(s', step.who).peer.screen;
            && s' == Put(s, step.who, n.(peer := n.peer.(screen := screen)))
            && (screen != n.peer.screen ==> n.peer.game.gameEnd && screen != PlayScreen)
  {
    var n, r := At(s, step.who), Handle(At(s, step.who).peer, LocalEventOf(step), Lowest(step));
    assert r == (n.peer.(screen := r.0.screen), []);
  }

  lemma IdleStep(s: System, x: Side, step: Step)
    requires Talking(s, x) && Ordered(s) && Enabled(s, step)
    requires step.ClickStep? || step.TickStep? || step.EnterStep?
    requires !ActsAtTurn(s, x, step)
    ensures var s' := Next(s, step);
            && GameAt(s', x) == GameAt(s, x) && InFlight(s', x) == InFlight(s, x)
            && Ordered(s') && Talking(s', x)
            && (Playing(s, x) ==> Playing(s', x))
  {
    IdleEvent(s, x, step);
    var screen := At(Next(s, step), step.who).peer.screen;
    if screen != At(s, step.who).peer.screen {
      ScreenStep(s, x, step.who, screen);
    } else {
      assert Next(s, step) == s;
    }
  }

  /** Every step of two playing PCs. */
  lemma TalkingStep(s: System, x: Side, step: Step)
    requires Talking(s, x) && Ordered(s) && Enabled(s, step)
    ensures var s' := Next(s, step);
            Ordered(s') && Talking(s', NextHolder(s, x, step))
  {
    if step.DrainStep? || step.ThrEmptyStep? {
      PortStep(s, x, step);
    } else if step.DeliverStep? {
      assert step.from == x;
      if HasLeft(At(s, Other(x)).peer) {
        ByteDropped(s, x);
      } else {
        Delivery(s, x);
      }
    } else if ActsAtTurn(s, x, step) {
      LocalStep(s, x, step);
      TurnHolderActs(s, x, TurnEffectOf(GameAt(s, x), step));
    } else {
      IdleStep(s, x, step);
    }
  }

  /** The event of the player at turn, which is not the end of a VS turn of the client, can be replayed. */
  lemma EventReplays(s: System, x: Side, step: Step)
    requires Playing(s, x) && ActsAtTurn(s, x, step) && !EndsClientVsTurn(s, step)
    ensures var e := TurnEffectOf(GameAt(s, x), step);
            Agree(e.game, Replay(Replay(GameAt(s, Other(x)), InFlight(s, x)), e.bytes))
  {
    var g, r := GameAt(s, x), Replay(GameAt(s, Other(x)), InFlight(s, x));
    if step.ClickStep? {
      ClickReplays(g, step.click, r);
    } else {
      TickReplays(g, r);
    }
  }

  lemma PlayingAction(s: System, x: Side, step: Step)
    requires Playing(s, x) && Ordered(s) && Enabled(s, step)
    requires ActsAtTurn(s, x, step) && !EndsClientVsTurn(s, step)
    ensures Playing(Next(s, step), x)
  {
    var e := TurnEffectOf(GameAt(s, x), step);
    LocalStep(s, x, step);
    TurnHolderActs(s, x, e);
    EventReplays(s, x, step);
    StillFollows(GameAt(s, x), GameAt(s, Other(x)), InFlight(s, x), e);
  }

  lemma PlayingDelivery(s: System, x: Side)
    requires Playing(s, x) && Ordered(s) && At(s, x).wire != []
    ensures Playing(Next(s, DeliverStep(x)), NextHolder(s, x, DeliverStep(x)))
  {
    var q, fl := GameAt(s, Other(x)), InFlight(s, x);
    EndPersists(q, fl[..|fl| - 1]);
    Delivery(s, x);
    ByteFollowed(GameAt(s, x), q, fl);
  }

  /** Every step but one also keeps the replicas in step. */
  lemma PlayingStep(s: System, x: Side, step: Step)
    requires Playing(s, x) && Ordered(s) && Enabled(s, step) && !EndsClientVsTurn(s, step)
    ensures Playing(Next(s, step), NextHolder(s, x, step))
  {
    if step.DrainStep? || step.ThrEmptyStep? {
      PortStep(s, x, step);
    } else if step.DeliverStep? {
      assert step.from == x;
      PlayingDelivery(s, x);
    } else if ActsAtTurn(s, x, step) {
      PlayingAction(s, x, step);
    } else {
      IdleStep(s, x, step);
    }
  }

  /** Both games have started and nothing has happened yet. */
  predicate Ready(s: System, rounds: nat) {
    var h, c := s.host.peer, s.client.peer;
    && h.gameStarted && c.gameStarted && h.game.isHost && !c.game.isHost
    && h.screen == PlayScreen && c.screen == PlayScreen
    && Fresh(h.game, rounds) && Fresh(c.game, rounds % 256)
    && InFlight(s, Host) == [] && InFlight(s, Client) == []
    && forall i :: 0 <= i < |s.log| ==> s.log[i].setup
  }

  /** The transmitter of either PC is empty during the handshake. */
  lemma SetupThrEmpty(s: System, rounds: nat, x: Side)
    requires Setup(s, rounds) && Ordered(s) && At(s, x).peer.uart.thr.None?
    ensures var s' := Next(s, ThrEmptyStep(x)); Setup(s', rounds) && Ordered(s')
  {
    var r := TransmitterEmpty(At(s, x).peer);
    ActParts(s, x, r);
    LocalEvent(s, x, r.0, r.1);
    if r.1 == [] {
      assert Next(s, ThrEmptyStep(x)) == s;
    } else if x == Host {
      assert InFlight(s, Host) + r.1 ==
             SizeBytes(rounds)[s.client.peer.receivedNoBytes..s.host.peer.numRoundSentBytes + 1];
    } else {
      assert InFlight(s, Client) + r.1 == [CONNECTED, ACK] || InFlight(s, Client) + r.1 == [ACK];
    }
  }

  /** The client receives a byte of the size. */
  lemma SetupToClient(s: System, rounds: nat)
    requires Setup(s, rounds) && Ordered(s) && s.host.wire != []
    ensures var s' := Next(s, DeliverStep(Host)); Setup(s', rounds) && Ordered(s')
  {
    var c, r := s.client.peer, Receive(s.client.peer, s.host.wire[0]);
    ByteTaken(s, Host);
    assert s.host.wire[0] == SizeByte(rounds, c.receivedNoBytes);
    DeliverParts(s, Host, r);
    assert InFlight(s, Host)[1..] ==
           SizeBytes(rounds)[c.receivedNoBytes + 1..s.host.peer.numRoundSentBytes];
    if r.1 == [ACK] {
      assert InFlight(s, Client) + [ACK] == [CONNECTED, ACK] || InFlight(s, Client) + [ACK] == [ACK];
    } else {
      assert InFlight(s, Client) + r.1 == InFlight(s, Client);
    }
  }

  lemma HostHears(h: Peer, data: byte)
    requires !h.gameStarted && h.game.isHost && (data == CONNECTED || data == ACK)
    ensures var r := Receive(h, data);
            if data == ACK then r == (h.(gameStarted := true), [])
            else if h.numRoundSentBytes < 2 && h.uart.thr.None? then
              var b := SizeByte(h.game.maxButtonsSize, h.numRoundSentBytes);
              r == (h.(uart := Send(h.uart, b), numRoundSentBytes := h.numRoundSentBytes + 1), [b])
            else r == (h, [])
  {
  }

  /** The host receives CONNECTED or, last of all, the acknowledgement. */
  lemma SetupToHost(s: System, rounds: nat)
    requires Setup(s, rounds) && Ordered(s) && s.client.wire != []
    ensures var s' := Next(s, DeliverStep(Client));
            && Ordered(s')
            && (if InFlight(s, Client)[0] == ACK then Ready(s', rounds) else Setup(s', rounds))
  {
    var h, r := s.host.peer, Receive(s.host.peer, s.client.wire[0]);
    ByteTaken(s, Client);
    HostHears(h, s.client.wire[0]);
    DeliverParts(s, Client, r);
    if r.1 == [] {
      assert InFlight(s, Host) + r.1 == InFlight(s, Host);
    } else {
      assert InFlight(s, Host) + r.1 ==
             SizeBytes(rounds)[s.client.peer.receivedNoBytes..h.numRoundSentBytes + 1];
    }
  }

  /** Every step of the handshake. */
  lemma SetupStep(s: System, rounds: nat, step: Step)
    requires Setup(s, rounds) && Ordered(s) && Enabled(s, step)
    ensures var s' := Next(s, step);
            && Ordered(s')
            && (Setup(s', rounds) || Ready(s', rounds))
  {
    match step
    case DrainStep(_) =>
      PortMoves(s, step, Host);
      PortMoves(s, step, Client);
    case ThrEmptyStep(x) => SetupThrEmpty(s, rounds, x);
    case DeliverStep(x) => if x == Host { SetupToClient(s, rounds); } else { SetupToHost(s, rounds); }
    case _ => assert Next(s, step) == s;
  }

  lemma ReadyIsPlaying(s: System, rounds: nat)
    requires Ready(s, rounds)
    ensures Talking(s, Host) && Sizes(s, rounds) && (rounds <= 255 ==> Playing(s, Host))
  {
  }

  // ---------------------------------------------------------------- whole runs

  lemma StartInvariant(rounds: nat, o: Opening)
    requires IsFirst(o)
    ensures var s := Start(rounds, o); Setup(s, rounds) && Ordered(s)
  {
    var log := Start(rounds, o).log;
    assert log[..|log| - 1] == [];
  }

  lemma ClickKeepsSize(g: Game, click: Click)
    ensures LocalClick(g, click).game.maxButtonsSize == g.maxButtonsSize
    ensures RemoteClick(g, click).maxButtonsSize == g.maxButtonsSize
  {
  }

  lemma ByteKeepsSize(g: Game, data: byte)
    ensures PlayGame(g, data).game.maxButtonsSize == g.maxButtonsSize
  {
    if IsButton(data) {
      ClickKeepsSize(g, data - GREEN_REMOTE);
    }
  }

  lemma StartedStep(s: System, step: Step)
    requires s.host.peer.gameStarted && s.client.peer.gameStarted && Enabled(s, step)
    ensures forall x :: GameAt(Next(s, step), x).maxButtonsSize == GameAt(s, x).maxButtonsSize
  {
    match step
    case ClickStep(x, c) => ClickKeepsSize(GameAt(s, x), c);
    case DeliverStep(x) => ByteKeepsSize(GameAt(s, Other(x)), At(s, x).wire[0]);
    case _ =>
  }

  lemma StepKeepsInvariant(s: System, rounds: nat, step: Step)
    requires Invariant(s, rounds) && Enabled(s, step)
    ensures Invariant(Next(s, step), rounds)
  {
    if Setup(s, rounds) {
      SetupStep(s, rounds, step);
      if Ready(Next(s, step), rounds) {
        ReadyIsPlaying(Next(s, step), rounds);
      }
    } else {
      StartedStep(s, step);
      TalkingStep(s, if Talking(s, Host) then Host else Client, step);
    }
  }

  lemma StepStaysInStep(s: System, rounds: nat, step: Step)
    requires InStep(s, rounds) && Ordered(s) && rounds <= 255
    requires Enabled(s, step) && !EndsClientVsTurn(s, step)
    ensures InStep(Next(s, step), rounds)
  {
    if Setup(s, rounds) {
      SetupStep(s, rounds, step);
      if Ready(Next(s, step), rounds) {
        ReadyIsPlaying(Next(s, step), rounds);
      }
    } else {
      PlayingStep(s, if Playing(s, Host) then Host else Client, step);
    }
  }

  lemma {:induction false} RunKeepsInvariant(s: System, rounds: nat, steps: seq<Step>)
    requires Invariant(s, rounds) && IsRun(s, steps)
    ensures Invariant(Run(s, steps), rounds)
    ensures rounds <= 255 && InStep(s, rounds) && NoClientVsEnd(s, steps) ==> InStep(Run(s, steps), rounds)
    decreases |steps|
  {
    if steps != [] {
      StepKeepsInvariant(s, rounds, steps[0]);
      if rounds <= 255 && InStep(s, rounds) && !EndsClientVsTurn(s, steps[0]) {
        StepStaysInStep(s, rounds, steps[0]);
      }
      RunKeepsInvariant(Next(s, steps[0]), rounds, steps[1..]);
    }
  }

  /** The states that two PCs can reach in a game of `rounds` rounds. */
  ghost predicate Reachable(s: System, rounds: nat) {
    exists o :: IsFirst(o) && Reaches(Start(rounds, o), s, false)
  }

  /** Those that they can reach before a VS turn of the client has ended. */
  ghost predicate ReachableInStep(s: System, rounds: nat) {
    exists o :: IsFirst(o) && Reaches(Start(rounds, o), s, true)
  }

  lemma ReachesInvariant(s: System, t: System, rounds: nat, inStep: bool)
    requires Setup(s, rounds) && Ordered(s) && Reaches(s, t, inStep)
    ensures Invariant(t, rounds)
    ensures rounds <= 255 && inStep ==> InStep(t, rounds)
  {
    var steps :| IsRun(s, steps) && (inStep ==> NoClientVsEnd(s, steps)) && t == Run(s, steps);
    RunKeepsInvariant(s, rounds, steps);
  }

  lemma ReachableInvariant(s: System, rounds: nat)
    requires Reachable(s, rounds)
    ensures Invariant(s, rounds)
  {
    var o :| IsFirst(o) && Reaches(Start(rounds, o), s, false);
    StartInvariant(rounds, o);
    ReachesInvariant(Start(rounds, o), s, rounds, false);
  }

  lemma ReachableInStepInvariant(s: System, rounds: nat)
    requires ReachableInStep(s, rounds)
    ensures Reachable(s, rounds) && Invariant(s, rounds)
    ensures rounds <= 255 ==> InStep(s, rounds)
  {
    var o :| IsFirst(o) && Reaches(Start(rounds, o), s, true);
    StartInvariant(rounds, o);
    ReachesInvariant(Start(rounds, o), s, rounds, true);
    assert Reaches(Start(rounds, o), s, false);
  }
}
