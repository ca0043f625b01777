/**
 What the two PCs of TwoPcRuns.dfy can rely on: the protocol on every run and for any number
 of rounds, agreement of the replicas as long as no VS turn of the client has ended.
 */
module TwoPcTheorems {
  import opened Consts
  import opened TwoPcRules
  import opened TwoPcRuns
  import opened TwoPcEvents

  // ---------------------------------------------------------------- the two replicas

  /** `x` holds the turn, or its bytes under way end with it. */
  predicate HasTurn(s: System, x: Side) {
    MyTurn(GameAt(s, x)) || InFlight(s, x) != []
  }

  /** Whoever has the turn or bytes under way is ahead, and the other PC catches up by receiving them. */
  lemma ReplicaAgreement(s: System, rounds: nat)
    requires rounds <= 255 && ReachableInStep(s, rounds) && s.host.peer.gameStarted
    ensures forall x :: HasTurn(s, x) ==>
              && InFlight(s, Other(x)) == []
              && Agree(GameAt(s, x), Replay(GameAt(s, Other(x)), InFlight(s, x)))
    ensures exists x :: HasTurn(s, x)
  {
    ReachableInStepInvariant(s, rounds);
    var x := if Playing(s, Host) then Host else Client;
    NothingIsDropped(s, x);
    forall y | HasTurn(s, y) ensures y == x {
    }
    assert HasTurn(s, x);
  }

  /** With nothing under way the two sequences, positions and flags are the same. */
  lemma QuietReplicasAreEqual(s: System, rounds: nat)
    requires rounds <= 255 && ReachableInStep(s, rounds) && s.host.peer.gameStarted
    requires InFlight(s, Host) == [] && InFlight(s, Client) == []
    ensures Agree(GameAt(s, Host), GameAt(s, Client)) || Agree(GameAt(s, Client), GameAt(s, Host))
    ensures MyTurn(GameAt(s, Host)) != MyTurn(GameAt(s, Client))
  {
    ReachableInStepInvariant(s, rounds);
    NothingIsDropped(s, if Playing(s, Host) then Host else Client);
  }

  /** A PC that left had ended, and in step it then has nothing to receive, not even the turn. */
  lemma NothingIsDropped(s: System, x: Side)
    requires Playing(s, x)
    ensures GameAt(s, Other(x)).gameEnd ==> InFlight(s, x) == []
    ensures GameAt(s, Other(x)).gameEnd ==> GameAt(s, x).gameEnd
    ensures !MyTurn(GameAt(s, x)) ==> InFlight(s, x) != []
  {
    if InFlight(s, x) != [] {
      EndPersists(GameAt(s, Other(x)), InFlight(s, x)[..|InFlight(s, x)| - 1]);
    }
  }

  /** A VS turn of the client that ends is the one tick at turn after which the replicas differ. */
  lemma ClientVsTurnBreaksAgreement(s: System, rounds: nat, x: Side, lowest: int)
    requires rounds <= 255 && ReachableInStep(s, rounds) && s.host.peer.gameStarted
    requires MyTurn(GameAt(s, x)) && !GameAt(s, x).gameEnd && Enabled(s, TickStep(x, lowest))
    ensures var s' := Next(s, TickStep(x, lowest));
            Agree(GameAt(s', x), Replay(GameAt(s', Other(x)), InFlight(s', x)))
            <==> !EndsClientVsTurn(s, TickStep(x, lowest))
  {
    ReachableInStepInvariant(s, rounds);
    assert Playing(s, x);
    var g, q, fl := GameAt(s, x), GameAt(s, Other(x)), InFlight(s, x);
    LocalStep(s, x, TickStep(x, lowest));
    TurnHolderActs(s, x, Tick(g));
    ReplayAppend(q, fl, Tick(g).bytes);
    TickReplays(g, Replay(q, fl));
  }

  // ---------------------------------------------------------------- the turn

  function Turns(bytes: seq<byte>, from: Side): nat {
    if bytes == [] then 0
    else
      var hands := if from == Host then bytes[0] == 9 || bytes[0] == 10 else bytes[0] == 11;
      (if hands then 1 else 0) + Turns(bytes[1..], from)
  }

  lemma {:induction false} TurnsInFlight(g: Game, bytes: seq<byte>, lost: bool, x: Side)
    requires FlightShape(g, bytes, lost) && g.isHost == (x == Host)
    ensures Turns(bytes, x) == if MyTurn(g) || bytes == [] then 0 else 1
    decreases |bytes|
  {
    if |bytes| >= 2 {
      TurnsInFlight(g, bytes[1..], lost, x);
    }
  }

  /** The places where the turn can be: held by a PC, or on its way to the other. */
  function TurnCount(s: System): nat {
    (if GameAt(s, Host).isPlayer1 then 1 else 0) + (if !GameAt(s, Client).isPlayer1 then 1 else 0)
    + Turns(InFlight(s, Host), Host) + Turns(InFlight(s, Client), Client)
  }

  lemma TalkingTurns(s: System, x: Side)
    requires Talking(s, x)
    ensures TurnCount(s) == if HasTurn(s, x) then 1 else 0
  {
    TurnsInFlight(GameAt(s, x), InFlight(s, x), HasLeft(At(s, Other(x)).peer), x);
  }

  /** From the client's reset on there is never more than one turn, and in step exactly one. */
  lemma SingleTurn(s: System, rounds: nat)
    requires Reachable(s, rounds)
    requires s.client.peer.receivedNoBytes >= 2 || s.host.peer.gameStarted
    ensures TurnCount(s) <= 1
    ensures rounds <= 255 && ReachableInStep(s, rounds) ==> TurnCount(s) == 1
  {
    ReachableInvariant(s, rounds);
    if Setup(s, rounds) {
      assert InFlight(s, Host) == [];
      assert Turns([ACK], Client) == 0 && [CONNECTED, ACK][1..] == [ACK];
      assert Turns([CONNECTED], Client) == 0;
    } else {
      TalkingTurns(s, if Talking(s, Host) then Host else Client);
      if rounds <= 255 && ReachableInStep(s, rounds) {
        ReachableInStepInvariant(s, rounds);
        var x := if Playing(s, Host) then Host else Client;
        NothingIsDropped(s, x);
        TalkingTurns(s, x);
      }
    }
  }

  /** The turn arrives at a PC that has left the screen. */
  predicate LosesTurn(s: System, step: Step) {
    step.DeliverStep? && TurnArrives(s, step.from, step) && HasLeft(At(s, Other(step.from)).peer)
  }

  /** The one way for the turn to get lost. */
  lemma TurnIsLost(s: System, rounds: nat, step: Step)
    requires Reachable(s, rounds) && s.host.peer.gameStarted && Enabled(s, step) && TurnCount(s) == 1
    ensures TurnCount(Next(s, step)) == if LosesTurn(s, step) then 0 else 1
  {
    ReachableInvariant(s, rounds);
    var x := if Talking(s, Host) then Host else Client;
    TalkingTurns(s, x);
    TalkingStep(s, x, step);
    TalkingTurns(Next(s, step), NextHolder(s, x, step));
    TurnAfterStep(s, x, step);
  }

  lemma TurnByteIsLast(g: Game, fl: seq<byte>, lost: bool)
    requires FlightShape(g, fl, lost) && fl != [] && !MyTurn(g)
    ensures fl[0] == TurnByte(g) <==> fl[1..] == []
  {
    assert |fl| == 1 ==> fl[1..] == [];
  }

  lemma TurnAfterByte(g: Game, q: Game, fl: seq<byte>, log: seq<Sent>, x: Side)
    requires Exchange(g, q, fl, false, log, x) && fl != []
    ensures if fl[0] == TurnByte(g) then MyTurn(PlayGame(q, fl[0]).game) else MyTurn(g) || fl[1..] != []
  {
    ByteReceived(g, q, fl, log, x);
    if !MyTurn(g) {
      TurnByteIsLast(g, fl, false);
    }
  }

  lemma TurnAfterDrop(s: System, x: Side)
    requires Talking(s, x) && Ordered(s) && At(s, x).wire != [] && HasLeft(At(s, Other(x)).peer)
    ensures HasTurn(Next(s, DeliverStep(x)), x) <==> !LosesTurn(s, DeliverStep(x))
  {
    ByteTaken(s, x);
    DeliverParts(s, x, (At(s, Other(x)).peer, []));
    if !MyTurn(GameAt(s, x)) {
      TurnByteIsLast(GameAt(s, x), InFlight(s, x), true);
    }
  }

  lemma TurnAfterDelivery(s: System, x: Side)
    requires Talking(s, x) && Ordered(s) && At(s, x).wire != [] && !HasLeft(At(s, Other(x)).peer)
    ensures HasTurn(Next(s, DeliverStep(x)), NextHolder(s, x, DeliverStep(x)))
  {
    ByteTaken(s, x);
    TurnAfterByte(GameAt(s, x), GameAt(s, Other(x)), InFlight(s, x), s.log, x);
    Delivery(s, x);
  }

  lemma TurnAfterAction(s: System, x: Side, step: Step)
    requires Talking(s, x) && Ordered(s) && Enabled(s, step) && ActsAtTurn(s, x, step)
    ensures HasTurn(Next(s, step), x)
  {
    LocalStep(s, x, step);
    TurnHolderActs(s, x, TurnEffectOf(GameAt(s, x), step));
  }

  lemma TurnAfterOther(s: System, x: Side, step: Step)
    requires Talking(s, x) && Ordered(s) && Enabled(s, step) && HasTurn(s, x)
    requires !step.DeliverStep? && !ActsAtTurn(s, x, step)
    ensures HasTurn(Next(s, step), x)
  {
    if step.DrainStep? || step.ThrEmptyStep? {
      PortStep(s, x, step);
    } else {
      IdleStep(s, x, step);
    }
  }

  lemma TurnAfterStep(s: System, x: Side, step: Step)
    requires Talking(s, x) && Ordered(s) && Enabled(s, step)
    requires HasTurn(s, x)
    ensures HasTurn(Next(s, step), NextHolder(s, x, step)) <==> !LosesTurn(s, step)
  {
    if step.DeliverStep? {
      assert step.from == x;
      if HasLeft(At(s, Other(x)).peer) {
        TurnAfterDrop(s, x);
      } else {
        TurnAfterDelivery(s, x);
      }
    } else if ActsAtTurn(s, x, step) {
      TurnAfterAction(s, x, step);
    } else {
      TurnAfterOther(s, x, step);
    }
  }

  /** Two clicks are never accepted at once, and a received button is never taken for a local click. */
  lemma NoSimultaneousClicks(s: System, rounds: nat)
    requires Reachable(s, rounds)
    ensures !(AcceptsClick(s.host.peer) && AcceptsClick(s.client.peer))
    ensures forall x :: At(s, x).wire != [] && IsButton(At(s, x).wire[0]) && At(s, Other(x)).peer.gameStarted
              ==> !MyTurn(GameAt(s, Other(x))) && Receive(At(s, Other(x)).peer, At(s, x).wire[0]).1 == []
  {
    ReachableInvariant(s, rounds);
    forall x | At(s, x).wire != [] && IsButton(At(s, x).wire[0]) && At(s, Other(x)).peer.gameStarted
      ensures !MyTurn(GameAt(s, Other(x)))
    {
      assert InFlight(s, x)[0] == At(s, x).wire[0];
    }
  }

  // ---------------------------------------------------------------- the end of a game

  /** The PC that lost or tied is the last to send, and it sends one end byte only. */
  lemma EndByteIsLast(s: System, rounds: nat, i: nat)
    requires Reachable(s, rounds) && i < |s.log| && IsEndByte(s.log[i])
    ensures i == |s.log| - 1 && s.host.peer.gameStarted && GameAt(s, s.log[i].from).gameEnd
    ensures s.log[i].data == EndByte(GameAt(s, s.log[i].from).ws)
  {
    ReachableInvariant(s, rounds);
  }

  function Rival(x: Side): Winner {
    if x == Host then Winner2 else Winner1
  }

  /** `x` has announced its loss, and the byte has arrived. */
  predicate LossArrived(s: System, x: Side) {
    s.log != [] && s.log[|s.log| - 1] == Sent(x, LOSE, false) && InFlight(s, x) == []
  }

  /**
   Once it has arrived both games have ended, the sender's with its rival as winner. The
   rival's has the same result, unless that PC had left the screen before with a tie of its
   own, which it cannot have in step.
   */
  lemma LoserAgreement(s: System, rounds: nat, x: Side)
    requires Reachable(s, rounds) && LossArrived(s, x)
    ensures GameAt(s, x).gameEnd && GameAt(s, x).ws == Rival(x)
    ensures GameAt(s, Other(x)).gameEnd
    ensures GameAt(s, Other(x)).ws == Rival(x)
            || (HasLeft(At(s, Other(x)).peer) && GameAt(s, Other(x)).ws == Tie)
    ensures rounds <= 255 && ReachableInStep(s, rounds) ==> GameAt(s, Other(x)).ws == Rival(x)
  {
    ReachableInvariant(s, rounds);
    assert IsEndByte(s.log[|s.log| - 1]);
    if rounds <= 255 && ReachableInStep(s, rounds) {
      ReachableInStepInvariant(s, rounds);
    }
  }

  lemma LoseIsAlone(g: Game, q: Game, fl: seq<byte>, lost: bool, log: seq<Sent>, x: Side)
    requires Exchange(g, q, fl, lost, log, x) && fl != [] && fl[0] == LOSE
    ensures g.gameEnd && g.ws == Opponent(g.isPlayer1) && g.ws == Rival(x)
    ensures q.gameEnd ==> q.ws == Tie
    ensures var q' := PlayGame(q, LOSE).game; q'.gameEnd && q'.ws == Rival(x)
  {
    assert |fl| == 1;
  }

  /** A loss that arrives gives both PCs the same result exactly when the receiver is on the screen. */
  lemma LossIsHeardOnScreen(s: System, rounds: nat, x: Side)
    requires Reachable(s, rounds) && s.host.peer.gameStarted && At(s, x).wire != [] && At(s, x).wire[0] == LOSE
    ensures var s' := Next(s, DeliverStep(x));
            && GameAt(s', x).gameEnd && GameAt(s', x).ws == Rival(x) && GameAt(s', Other(x)).gameEnd
            && (GameAt(s', Other(x)).ws == Rival(x) <==> !HasLeft(At(s, Other(x)).peer))
  {
    ReachableInvariant(s, rounds);
    ByteTaken(s, x);
    var q := At(s, Other(x)).peer;
    assert Talking(s, x);
    LoseIsAlone(GameAt(s, x), q.game, InFlight(s, x), HasLeft(q), s.log, x);
    if HasLeft(q) {
      ByteDropped(s, x);
    } else {
      Delivery(s, x);
    }
  }

  /** A click that repeats nothing because the full sequence has been repeated. */
  predicate EndsInTie(s: System, x: Side, step: Step) {
    step.ClickStep? && step.click != NO_BUTTON && Classify(GameAt(s, x), step.click) == Complete
  }

  lemma EndingEvent(s: System, x: Side, step: Step)
    requires ActsAtTurn(s, x, step) && TurnEffectOf(GameAt(s, x), step).game.gameEnd
    ensures Tied(TurnEffectOf(GameAt(s, x), step).game) <==> EndsInTie(s, x, step)
    ensures !EndsClientVsTurn(s, step)
  {
  }

  /** The event that ends a game is told to the other PC exactly when it is not that click. */
  lemma EndIsSharedIffNoTie(s: System, rounds: nat, x: Side, step: Step)
    requires rounds <= 255 && ReachableInStep(s, rounds) && s.host.peer.gameStarted
    requires Enabled(s, step) && ActsAtTurn(s, x, step) && GameAt(Next(s, step), x).gameEnd
    ensures var s' := Next(s, step);
            var r := Replay(GameAt(s', Other(x)), InFlight(s', x));
            r.gameEnd && r.ws == GameAt(s', x).ws <==> !EndsInTie(s, x, step)
  {
    ReachableInStepInvariant(s, rounds);
    assert Playing(s, x);
    var e := TurnEffectOf(GameAt(s, x), step);
    LocalStep(s, x, step);
    TurnHolderActs(s, x, e);
    EndingEvent(s, x, step);
    EventReplays(s, x, step);
    ReplayAppend(GameAt(s, Other(x)), InFlight(s, x), e.bytes);
  }

  /** When all bytes have arrived the two PCs have the same result exactly when it is not a tie. */
  lemma SameResultIffNoTie(s: System, rounds: nat, x: Side)
    requires rounds <= 255 && ReachableInStep(s, rounds) && s.host.peer.gameStarted
    requires GameAt(s, x).gameEnd && InFlight(s, Host) == [] && InFlight(s, Client) == []
    ensures GameAt(s, Other(x)).gameEnd && GameAt(s, Other(x)).ws == GameAt(s, x).ws
            <==> GameAt(s, x).ws != Tie
  {
    ReachableInStepInvariant(s, rounds);
  }

  /** Nothing is on its way to a PC whose game has ended. */
  lemma NothingReachesAnEndedGame(s: System, rounds: nat, x: Side)
    requires rounds <= 255 && ReachableInStep(s, rounds) && s.host.peer.gameStarted && GameAt(s, x).gameEnd
    ensures InFlight(s, Other(x)) == []
  {
    ReachableInStepInvariant(s, rounds);
    if Playing(s, Other(x)) {
      NothingIsDropped(s, Other(x));
    }
  }

  // ---------------------------------------------------------------- the serial port

  /** Over a whole run no byte is lost, refused, repeated or overtaken on its way to the other PC. */
  lemma SendOrder(s: System, rounds: nat, x: Side)
    requires Reachable(s, rounds)
    ensures Issued(s.log, x) == At(s, x).delivered + InFlight(s, x)
    ensures InFlight(s, x) == At(s, x).wire + Held(At(s, x).peer.uart)
  {
    ReachableInvariant(s, rounds);
  }

  // ---------------------------------------------------------------- delivery

  /** A PC that has left the screen no longer looks after its queue. */
  predicate IsStuck(p: Peer) {
    HasLeft(p) && p.uart.hasData
  }

  lemma StuckStep(s: System, x: Side, step: Step)
    requires IsStuck(At(s, x).peer) && Enabled(s, step)
    ensures IsStuck(At(Next(s, step), x).peer)
  {
  }

  lemma {:induction false} StuckForever(s: System, x: Side, steps: seq<Step>)
    requires IsStuck(At(s, x).peer) && IsRun(s, steps)
    ensures IsStuck(At(Run(s, steps), x).peer)
    decreases |steps|
  {
    if steps != [] {
      StuckStep(s, x, steps[0]);
      StuckForever(Next(s, steps[0]), x, steps[1..]);
    }
  }

  /** How far the bytes of `x` have to go. */
  function ToGo(n: Node): nat {
    |n.wire| + (if n.peer.uart.thr.Some? then 2 else 0) + (if n.peer.uart.hasData then 3 else 0)
  }

  function Forward(s: System, x: Side): Step {
    if At(s, x).wire != [] then DeliverStep(x)
    else if At(s, x).peer.uart.thr.Some? then DrainStep(x)
    else ThrEmptyStep(x)
  }

  lemma ForwardStep(s: System, x: Side)
    requires InFlight(s, x) != [] && !IsStuck(At(s, x).peer)
    requires At(s, x).peer.uart.hasData ==> At(s, x).peer.gameStarted
    ensures var step := Forward(s, x);
            && Enabled(s, step)
            && var n, n' := At(s, x), At(Next(s, step), x);
               ToGo(n') < ToGo(n) && n'.peer == n.peer.(uart := n'.peer.uart) && !IsStuck(n'.peer)
  {
  }

  lemma OnlyPlayersQueue(s: System, rounds: nat, x: Side)
    requires Invariant(s, rounds)
    ensures At(s, x).peer.uart.hasData ==> At(s, x).peer.gameStarted
  {
  }

  /** What `x` has sent can arrive, and it takes nothing but the work of line and port. */
  lemma {:induction false} CanArrive(s: System, t: System, rounds: nat, x: Side, inStep: bool) returns (u: System)
    requires Reaches(s, t, inStep) && Invariant(t, rounds) && !IsStuck(At(t, x).peer)
    ensures Reaches(s, u, inStep) && InFlight(u, x) == [] && GameAt(u, x) == GameAt(t, x)
    decreases ToGo(At(t, x))
  {
    u := t;
    if InFlight(t, x) != [] {
      OnlyPlayersQueue(t, rounds, x);
      ForwardStep(t, x);
      StepKeepsInvariant(t, rounds, Forward(t, x));
      ReachesNext(s, t, Forward(t, x), inStep);
      u := CanArrive(s, Next(t, Forward(t, x)), rounds, x, inStep);
    }
  }

  /** All that a PC has sent can still arrive if and only if it has not left the screen with a byte in its queue. */
  lemma BytesCanArriveIff(s: System, rounds: nat, x: Side, inStep: bool)
    requires Reachable(s, rounds)
    ensures (exists t :: Reaches(s, t, inStep) && InFlight(t, x) == []) <==> !IsStuck(At(s, x).peer)
  {
    ReachableInvariant(s, rounds);
    if IsStuck(At(s, x).peer) {
      forall t | Reaches(s, t, inStep) ensures InFlight(t, x) != [] {
        var steps :| IsRun(s, steps) && (inStep ==> NoClientVsEnd(s, steps)) && t == Run(s, steps);
        StuckForever(s, x, steps);
      }
    } else {
      ReachesItself(s, inStep);
      var t := CanArrive(s, s, rounds, x, inStep);
    }
  }

  predicate SameEnd(s: System) {
    GameAt(s, Host).gameEnd && GameAt(s, Client).gameEnd && GameAt(s, Host).ws == GameAt(s, Client).ws
  }

  lemma ReachableOn(s: System, t: System, rounds: nat)
    requires ReachableInStep(s, rounds) && Reaches(s, t, true)
    ensures ReachableInStep(t, rounds)
  {
    var o :| IsFirst(o) && Reaches(Start(rounds, o), s, true);
    ReachesOn(Start(rounds, o), s, t, true);
  }

  /** Once everything has arrived, a loss is known to both. */
  lemma LossIsShared(s: System, rounds: nat, x: Side)
    requires rounds <= 255 && ReachableInStep(s, rounds) && s.host.peer.gameStarted
    requires GameAt(s, x).gameEnd && GameAt(s, x).ws != Tie
    ensures InFlight(s, x) == [] <==> SameEnd(s)
  {
    NothingReachesAnEndedGame(s, rounds, x);
    if InFlight(s, x) == [] {
      SameResultIffNoTie(s, rounds, x);
    } else if SameEnd(s) {
      NothingReachesAnEndedGame(s, rounds, Other(x));
    }
  }

  lemma StartedStays(s: System, rounds: nat, steps: seq<Step>)
    requires Invariant(s, rounds) && s.host.peer.gameStarted && IsRun(s, steps)
    ensures Run(s, steps).host.peer.gameStarted
    decreases |steps|
  {
    if steps != [] {
      StepKeepsInvariant(s, rounds, steps[0]);
      TalkingStep(s, if Talking(s, Host) then Host else Client, steps[0]);
      StartedStays(Next(s, steps[0]), rounds, steps[1..]);
    }
  }

  /** In step, a loss can become known to both PCs if and only if its byte was not left in the queue. */
  lemma LossCanBeSharedIff(s: System, rounds: nat, x: Side)
    requires rounds <= 255 && ReachableInStep(s, rounds) && s.host.peer.gameStarted
    requires GameAt(s, x).gameEnd && GameAt(s, x).ws != Tie
    ensures (exists t :: Reaches(s, t, true) && SameEnd(t)) <==> !IsStuck(At(s, x).peer)
  {
    ReachableInStepInvariant(s, rounds);
    if IsStuck(At(s, x).peer) {
      forall t | Reaches(s, t, true) ensures !SameEnd(t) {
        StuckIsNotShared(s, t, rounds, x);
      }
    } else {
      ReachesItself(s, true);
      var t := CanArrive(s, s, rounds, x, true);
      ReachableOn(s, t, rounds);
      var steps :| IsRun(s, steps) && NoClientVsEnd(s, steps) && t == Run(s, steps);
      StartedStays(s, rounds, steps);
      LossIsShared(t, rounds, x);
    }
  }

  lemma StuckIsNotShared(s: System, t: System, rounds: nat, x: Side)
    requires rounds <= 255 && ReachableInStep(s, rounds) && s.host.peer.gameStarted
    requires IsStuck(At(s, x).peer) && Reaches(s, t, true)
    ensures !SameEnd(t)
  {
    ReachableInStepInvariant(s, rounds);
    ReachableOn(s, t, rounds);
    var steps :| IsRun(s, steps) && NoClientVsEnd(s, steps) && t == Run(s, steps);
    StuckForever(s, x, steps);
    StartedStays(s, rounds, steps);
    if SameEnd(t) {
      NothingReachesAnEndedGame(t, rounds, Other(x));
    }
  }

  // ---------------------------------------------------------------- the handshake

  /** When the host believes the game has started, so does the client, with the host's size modulo 256. */
  lemma HandshakeSafety(s: System, rounds: nat)
    requires Reachable(s, rounds) && s.host.peer.gameStarted
    ensures s.client.peer.gameStarted
    ensures GameAt(s, Host).maxButtonsSize == rounds
    ensures GameAt(s, Client).maxButtonsSize == GameAt(s, Host).maxButtonsSize <==> rounds <= 255
  {
    ReachableInvariant(s, rounds);
  }

  lemma ReadyAgrees(s: System, rounds: nat)
    requires Ready(s, rounds)
    ensures GameAt(s, Host).buttons == GameAt(s, Client).buttons == []
    ensures InFlight(s, Host) == InFlight(s, Client) == []
    ensures Agree(GameAt(s, Host), GameAt(s, Client)) <==> rounds <= 255
  {
  }

  /** The step by which the host starts leaves two equal, untouched replicas, if the size fits a byte. */
  lemma HandshakeEndsInAgreement(s: System, rounds: nat, step: Step)
    requires Reachable(s, rounds) && Enabled(s, step)
    requires !s.host.peer.gameStarted && Next(s, step).host.peer.gameStarted
    ensures var s' := Next(s, step);
            && GameAt(s', Host).buttons == GameAt(s', Client).buttons == []
            && InFlight(s', Host) == InFlight(s', Client) == []
            && (Agree(GameAt(s', Host), GameAt(s', Client)) <==> rounds <= 255)
  {
    ReachableInvariant(s, rounds);
    SetupStep(s, rounds, step);
    ReadyAgrees(Next(s, step), rounds);
  }

  /**
   Why ticks must wait for the reset: a client that has just connected, with its old timer at
   t >= 0, loses at tick t + 1 and leaves the screen at the next. The LOSE byte is queued behind CONNECTED.
   */
  lemma {:induction false} EarlyTicksLose(q: Peer, n: nat, lowest: int)
    requires FirstSession(q) && !q.game.gameEnd && !q.game.vsWasPressed
    ensures var p0, t := ConnectMpGame(q).(screen := PlayScreen), q.game.timeLeft;
            var p := Ticks(p0, n, lowest);
            var lost := 0 <= t < n;
            && !GameIsReset(p)
            && p.game.gameEnd == lost
            && (HasLeft(p) <==> 0 <= t < n - 1)
            && p.uart == (if lost then Uart(Some(CONNECTED), true, LOSE) else p0.uart)
            && (!lost ==> p == p0.(game := p0.game.(timeLeft := if t < 0 then t else t - n)))
  {
    if n > 0 {
      EarlyTicksLose(q, n - 1, lowest);
    }
  }

  // ---------------------------------------------------------------- the handshake can always go on

  /** What is still to be done before the host starts. */
  function Remaining(s: System): nat {
    var h, c := s.host.peer, s.client.peer;
    4 * (if h.numRoundSentBytes <= 2 then 2 - h.numRoundSentBytes else 0)
    + ToGo(s.host) + (if c.gameStarted then 0 else 3) + ToGo(s.client)
  }

  function Useful(s: System): Step {
    if InFlight(s, Host) != [] then Forward(s, Host)
    else if s.host.peer.numRoundSentBytes < 2 then ThrEmptyStep(Host)
    else if s.client.peer.gameStarted || s.client.peer.uart.thr.Some? then Forward(s, Client)
    else ThrEmptyStep(Client)
  }

  /** A byte from the host, or its next one. */
  lemma HostGoesOn(s: System, rounds: nat)
    requires Setup(s, rounds) && (InFlight(s, Host) != [] || s.host.peer.numRoundSentBytes < 2)
    ensures Enabled(s, Useful(s)) && Remaining(Next(s, Useful(s))) < Remaining(s)
  {
  }

  /** Both bytes of the size have arrived: the client answers. */
  lemma ClientGoesOn(s: System, rounds: nat)
    requires Setup(s, rounds) && InFlight(s, Host) == [] && s.host.peer.numRoundSentBytes == 2
    ensures Enabled(s, Useful(s)) && Remaining(Next(s, Useful(s))) < Remaining(s)
  {
    assert s.client.peer.receivedNoBytes == 2;
  }

  lemma {:induction false} SetupCanFinish(s: System, t: System, rounds: nat, inStep: bool) returns (u: System)
    requires Reaches(s, t, inStep) && Ordered(t) && (Setup(t, rounds) || Ready(t, rounds))
    ensures Reaches(s, u, inStep) && Ready(u, rounds)
    decreases Remaining(t)
  {
    u := t;
    if Setup(t, rounds) {
      if InFlight(t, Host) != [] || t.host.peer.numRoundSentBytes < 2 {
        HostGoesOn(t, rounds);
      } else {
        ClientGoesOn(t, rounds);
      }
      SetupStep(t, rounds, Useful(t));
      ReachesNext(s, t, Useful(t), inStep);
      if Ready(Next(t, Useful(t)), rounds) {
        u := Next(t, Useful(t));
      } else {
        u := SetupCanFinish(s, Next(t, Useful(t)), rounds, inStep);
      }
    }
  }

  /** From every state of the handshake, whatever has happened in it, some run completes it. */
  lemma HandshakeCanGoOn(s: System, rounds: nat, inStep: bool) returns (t: System)
    requires Reachable(s, rounds) && !s.host.peer.gameStarted
    ensures Reaches(s, t, inStep) && Ready(t, rounds)
  {
    ReachableInvariant(s, rounds);
    ReachesItself(s, inStep);
    t := SetupCanFinish(s, s, rounds, inStep);
  }
}
