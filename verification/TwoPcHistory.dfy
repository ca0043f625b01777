/** The clicks, the score and the clock of a game on two PCs, over whole runs in step. */
module TwoPcHistory {
  import opened Consts
  import opened TwoPcRules
  import opened TwoPcRuns
  import opened TwoPcTheorems
  import opened TwoPcEvents
  import T = OnePcTurns

  // ---------------------------------------------------------------- turns

  /** The sequence that finished turns leave, and all their clicks: every turn repeats all of it and adds to it. */
  function Whole(done: seq<T.Turn>): (p: T.Past)
    ensures p.begin == 0
  {
    if done == [] then T.Past([], 0, [])
    else
      var p, added := Whole(done[..|done| - 1]), done[|done| - 1].added;
      T.Past(p.buttons + added, 0, p.clicks + p.buttons + added)
  }

  lemma OneMoreTurn(done: seq<T.Turn>, turn: T.Turn)
    ensures var p := Whole(done);
            Whole(done + [turn]) == T.Past(p.buttons + turn.added, 0, p.clicks + p.buttons + turn.added)
  {
    assert (done + [turn])[..|done|] == done;
  }

  /** The clicks accepted on both PCs, the finished turns, and the buttons added so far in a VS turn. */
  datatype Record = Record(clicks: seq<Click>, done: seq<T.Turn>, bonus: seq<Click>)

  const NOTHING := Record([], [], [])

  function TrackClick(g: Game, r: Record, c: Click): Record {
    var r' := r.(clicks := r.clicks + [c]);
    if MustRepeat(g) || g.guessed == g.maxButtonsSize then r'
    else if r.bonus != [] || c == 5 then r'.(bonus := r.bonus + [c])
    else r'.(done := r.done + [T.Turn([c], false)])
  }

  function TrackTick(g: Game, r: Record): Record {
    if g.vsWasPressed && g.timeLeft == 0 then r.(done := r.done + [T.Turn(r.bonus, true)], bonus := []) else r
  }

  function TrackEvent(g: Game, r: Record, step: Step): Record
    requires step.ClickStep? || step.TickStep?
  {
    if step.TickStep? then TrackTick(g, r)
    else if step.click == NO_BUTTON then r
    else TrackClick(g, r, step.click)
  }

  /** What a step adds: a click or a tick of a PC at turn in a running game. */
  function Track(s: System, r: Record, step: Step): Record {
    if (step.ClickStep? || step.TickStep?) && CanPlay(At(s, step.who).peer) then TrackEvent(GameAt(s, step.who), r, step)
    else r
  }

  ghost function TrackAll(s: System, r: Record, steps: seq<Step>): Record
    requires IsRun(s, steps)
    decreases |steps|
  {
    if steps == [] then r else TrackAll(Next(s, steps[0]), Track(s, r, steps[0]), steps[1..])
  }

  // ---------------------------------------------------------------- the game of the player at turn

  /** The length of the sequence that was repeated last. */
  function LastRepeated(r: Record): nat {
    if r.bonus != [] then |Whole(r.done).buttons|
    else if r.done == [] then 0
    else |Whole(r.done[..|r.done| - 1]).buttons|
  }

  /** Sequence, position and flags. */
  predicate InTurn(g: Game, b: seq<Click>, bonus: seq<Click>) {
    && g.isVsRound
    && g.buttons == b + bonus
    && (g.vsWasPressed <==> bonus != [])
    && (if bonus == [] then g.guessed <= |b|
        else bonus[0] == 5 && g.guessed == |b| && g.guessed != g.maxButtonsSize && MyTurn(g) && !g.gameEnd)
    && (!MyTurn(g) ==> g.guessed == 0 && b != [])
  }

  /** The clock is off exactly while a new button is awaited outside a VS turn. */
  predicate OnTime(g: Game, b: seq<Click>) {
    MyTurn(g) ==>
      if g.vsWasPressed then 0 <= g.timeLeft <= 6
      else -1 <= g.timeLeft <= 4 && (g.timeLeft == -1 <==> g.guessed == |b|)
  }

  function Known(p: T.Past, bonus: seq<Click>, guessed: nat): seq<Click>
    requires guessed <= |p.buttons|
  {
    p.clicks + (if bonus == [] then p.buttons[..guessed] else p.buttons + bonus)
  }

  /** All clicks, the one that ended the game perhaps excepted. */
  predicate ClicksKnown(g: Game, p: T.Past, r: Record)
    requires g.guessed <= |p.buttons|
  {
    var known, h := Known(p, r.bonus, g.guessed), r.clicks;
    h == known || (g.gameEnd && h != [] && h[..|h| - 1] == known)
  }

  predicate Alternate(g: Game, done: seq<T.Turn>) {
    && (forall i :: 0 <= i < |done| ==> T.IsTurn(done[i]))
    && (g.isPlayer1 <==> |done| % 2 == 0)
  }

  predicate OnTrack(g: Game, r: Record) {
    var p := Whole(r.done);
    && Alternate(g, r.done)
    && InTurn(g, p.buttons, r.bonus)
    && OnTime(g, p.buttons)
    && ClicksKnown(g, p, r)
    && g.playerScore == if Tied(g) then |p.buttons| else LastRepeated(r)
  }

  lemma TurnIsDone(g: Game, g': Game, r: Record, turn: T.Turn)
    requires Alternate(g, r.done) && T.IsTurn(turn) && g'.isPlayer1 != g.isPlayer1
    ensures var done := r.done + [turn];
            && Alternate(g', done) && done[..|done| - 1] == r.done
            && Whole(done).buttons == Whole(r.done).buttons + turn.added
            && Whole(done).clicks == Whole(r.done).clicks + Whole(r.done).buttons + turn.added
  {
    var done := r.done + [turn];
    OneMoreTurn(r.done, turn);
    assert |done| == |r.done| + 1;
    forall i | 0 <= i < |done| ensures T.IsTurn(done[i]) {
      assert i < |r.done| ==> done[i] == r.done[i];
    }
  }

  lemma MatchTracked(g: Game, r: Record, c: Click)
    requires OnTrack(g, r) && MyTurn(g) && !g.gameEnd && c != NO_BUTTON && MustRepeat(g)
    requires c == g.buttons[g.guessed]
    ensures OnTrack(LocalClick(g, c).game, r.(clicks := r.clicks + [c]))
  {
    RepeatingClick(g, c);
    var p := Whole(r.done);
    assert p.buttons[..g.guessed + 1] == p.buttons[..g.guessed] + [p.buttons[g.guessed]];
    assert p.clicks + p.buttons[..g.guessed + 1] == p.clicks + p.buttons[..g.guessed] + [c];
  }

  lemma MistakeTracked(g: Game, r: Record, c: Click)
    requires OnTrack(g, r) && MyTurn(g) && !g.gameEnd && c != NO_BUTTON && MustRepeat(g)
    requires c != g.buttons[g.guessed]
    ensures OnTrack(LocalClick(g, c).game, r.(clicks := r.clicks + [c]))
  {
    RepeatingClick(g, c);
    assert (r.clicks + [c])[..|r.clicks|] == r.clicks;
  }

  lemma TieTracked(g: Game, r: Record, c: Click)
    requires OnTrack(g, r) && MyTurn(g) && !g.gameEnd && c != NO_BUTTON
    requires !MustRepeat(g) && g.guessed == g.maxButtonsSize
    ensures OnTrack(LocalClick(g, c).game, TrackClick(g, r, c))
  {
    ClosingClick(g, c);
    assert (r.clicks + [c])[..|r.clicks|] == r.clicks;
  }

  lemma VsTracked(g: Game, r: Record, c: Click)
    requires OnTrack(g, r) && MyTurn(g) && !g.gameEnd && c != NO_BUTTON
    requires !MustRepeat(g) && g.guessed != g.maxButtonsSize && (r.bonus != [] || c == 5)
    ensures OnTrack(LocalClick(g, c).game, TrackClick(g, r, c))
  {
    var p, bonus := Whole(r.done), r.bonus + [c];
    if r.bonus != [] {
      BonusClick(g, c);
    } else {
      ClosingClick(g, c);
      assert p.buttons[..g.guessed] == p.buttons == p.buttons + [];
    }
    assert p.buttons + bonus == p.buttons + r.bonus + [c];
    assert p.clicks + (p.buttons + bonus) == p.clicks + (p.buttons + r.bonus) + [c];
  }

  lemma ExtendTracked(g: Game, r: Record, c: Click)
    requires OnTrack(g, r) && MyTurn(g) && !g.gameEnd && c != NO_BUTTON
    requires !MustRepeat(g) && g.guessed != g.maxButtonsSize && r.bonus == [] && c != 5
    ensures OnTrack(LocalClick(g, c).game, TrackClick(g, r, c))
  {
    ClosingClick(g, c);
    var p, g' := Whole(r.done), LocalClick(g, c).game;
    TurnIsDone(g, g', r, T.Turn([c], false));
    assert p.buttons + [] == p.buttons == p.buttons[..g.guessed];
    var b := p.buttons + [c];
    assert g'.buttons == b == b + [] && b[..0] == [];
  }

  lemma ClickTracked(g: Game, r: Record, c: Click)
    requires OnTrack(g, r) && MyTurn(g) && !g.gameEnd && c != NO_BUTTON
    ensures OnTrack(LocalClick(g, c).game, TrackClick(g, r, c))
  {
    if MustRepeat(g) {
      if c == g.buttons[g.guessed] {
        MatchTracked(g, r, c);
      } else {
        MistakeTracked(g, r, c);
      }
    } else if g.guessed == g.maxButtonsSize {
      TieTracked(g, r, c);
    } else if r.bonus != [] || c == 5 {
      VsTracked(g, r, c);
    } else {
      ExtendTracked(g, r, c);
    }
  }

  /** A VS turn of the host runs out. */
  lemma VsEndTracked(g: Game, r: Record)
    requires OnTrack(g, r) && MyTurn(g) && !g.gameEnd && g.isHost && g.vsWasPressed && g.timeLeft == 0
    ensures OnTrack(Tick(g).game, TrackTick(g, r))
  {
    var p, g' := Whole(r.done), Tick(g).game;
    TurnIsDone(g, g', r, T.Turn(r.bonus, true));
    var b := p.buttons + r.bonus;
    assert g'.buttons == b == b + [] && b[..0] == [];
    assert p.clicks + (p.buttons + r.bonus) == p.clicks + p.buttons + r.bonus;
  }

  lemma ClockTracked(g: Game, r: Record)
    requires OnTrack(g, r) && MyTurn(g) && !g.gameEnd && !(g.vsWasPressed && g.timeLeft == 0)
    ensures OnTrack(Tick(g).game, r) && TrackTick(g, r) == r
  {
  }

  /** A click or a tick, other than the tick that ends a VS turn of the client. */
  lemma EventTracked(g: Game, r: Record, step: Step)
    requires OnTrack(g, r) && MyTurn(g) && !g.gameEnd && (step.ClickStep? || step.TickStep?)
    requires step.TickStep? ==> !(!g.isHost && g.vsWasPressed && g.timeLeft == 0)
    ensures OnTrack(TurnEffectOf(g, step).game, TrackEvent(g, r, step))
  {
    if step.ClickStep? {
      if step.click != NO_BUTTON {
        ClickTracked(g, r, step.click);
      }
    } else if g.vsWasPressed && g.timeLeft == 0 {
      VsEndTracked(g, r);
    } else {
      ClockTracked(g, r);
    }
  }

  /** The turn arrives at a replica that agrees. */
  lemma TurnTracked(g: Game, r: Record, q: Game)
    requires OnTrack(g, r) && !MyTurn(g) && !g.gameEnd
    requires Agree(g, q) && MyTurn(q) && q.timeLeft == 4
    ensures OnTrack(q, r)
  {
  }

  // ---------------------------------------------------------------- whole runs

  lemma ActionGame(s: System, x: Side, step: Step)
    requires Talking(s, x) && Ordered(s) && Enabled(s, step) && ActsAtTurn(s, x, step)
    ensures GameAt(Next(s, step), x) == TurnEffectOf(GameAt(s, x), step).game
  {
    LocalStep(s, x, step);
    TurnHolderActs(s, x, TurnEffectOf(GameAt(s, x), step));
  }

  lemma ActionRecord(s: System, x: Side, r: Record, step: Step)
    requires Talking(s, x) && ActsAtTurn(s, x, step)
    ensures Track(s, r, step) == TrackEvent(GameAt(s, x), r, step) && NextHolder(s, x, step) == x
  {
  }

  lemma OtherGame(s: System, x: Side, step: Step)
    requires Talking(s, x) && Ordered(s) && Enabled(s, step) && !step.DeliverStep? && !ActsAtTurn(s, x, step)
    ensures GameAt(Next(s, step), x) == GameAt(s, x)
  {
    if step.DrainStep? || step.ThrEmptyStep? {
      PortStep(s, x, step);
    } else {
      IdleStep(s, x, step);
    }
  }

  lemma OtherRecord(s: System, x: Side, r: Record, step: Step)
    requires Talking(s, x) && !ActsAtTurn(s, x, step)
    ensures Track(s, r, step) == r
    ensures !step.DeliverStep? ==> NextHolder(s, x, step) == x
  {
    if step.ClickStep? || step.TickStep? {
      assert step.who == x || step.who == Other(x);
    }
  }

  lemma ActionTracked(s: System, x: Side, r: Record, step: Step)
    requires Playing(s, x) && Ordered(s) && Enabled(s, step) && ActsAtTurn(s, x, step) && !EndsClientVsTurn(s, step)
    requires OnTrack(GameAt(s, x), r)
    ensures OnTrack(GameAt(Next(s, step), NextHolder(s, x, step)), Track(s, r, step))
  {
    ActionGame(s, x, step);
    ActionRecord(s, x, r, step);
    EventTracked(GameAt(s, x), r, step);
  }

  lemma TurnByteTracked(g: Game, q: Game, fl: seq<byte>, log: seq<Sent>, x: Side, r: Record)
    requires Exchange(g, q, fl, false, log, x) && Follows(g, q, fl) && OnTrack(g, r)
    requires fl != [] && fl[0] == TurnByte(g)
    ensures OnTrack(PlayGame(q, fl[0]).game, r)
  {
    ByteReceived(g, q, fl, log, x);
    assert fl == [fl[0]];
    OtherBytes(q, fl[0]);
    ReplayBurst(q, fl[0], fl[0]);
    TurnTracked(g, r, PlayGame(q, fl[0]).game);
  }

  lemma StillOnScreen(s: System, x: Side)
    requires Playing(s, x) && At(s, x).wire != []
    ensures !HasLeft(At(s, Other(x)).peer) && InFlight(s, x) != []
    ensures Exchange(GameAt(s, x), GameAt(s, Other(x)), InFlight(s, x), false, s.log, x)
  {
    EndPersists(GameAt(s, Other(x)), InFlight(s, x)[..|InFlight(s, x)| - 1]);
  }

  lemma DeliveryGame(s: System, x: Side)
    requires Playing(s, x) && Ordered(s) && At(s, x).wire != []
    ensures var g, q, fl, s' := GameAt(s, x), GameAt(s, Other(x)), InFlight(s, x), Next(s, DeliverStep(x));
            && fl != []
            && GameAt(s', NextHolder(s, x, DeliverStep(x))) == if fl[0] == TurnByte(g) then PlayGame(q, fl[0]).game else g
  {
    StillOnScreen(s, x);
    Delivery(s, x);
  }

  lemma DeliveryTracked(s: System, x: Side, r: Record)
    requires Playing(s, x) && Ordered(s) && At(s, x).wire != [] && OnTrack(GameAt(s, x), r)
    ensures OnTrack(GameAt(Next(s, DeliverStep(x)), NextHolder(s, x, DeliverStep(x))), r)
  {
    StillOnScreen(s, x);
    DeliveryGame(s, x);
    if InFlight(s, x)[0] == TurnByte(GameAt(s, x)) {
      TurnByteTracked(GameAt(s, x), GameAt(s, Other(x)), InFlight(s, x), s.log, x, r);
    }
  }

  lemma StepTracked(s: System, x: Side, r: Record, step: Step)
    requires Playing(s, x) && Ordered(s) && Enabled(s, step) && !EndsClientVsTurn(s, step)
    requires OnTrack(GameAt(s, x), r)
    ensures OnTrack(GameAt(Next(s, step), NextHolder(s, x, step)), Track(s, r, step))
  {
    if ActsAtTurn(s, x, step) {
      ActionTracked(s, x, r, step);
    } else {
      OtherRecord(s, x, r, step);
      if step.DeliverStep? {
        assert step.from == x;
        DeliveryTracked(s, x, r);
      } else {
        OtherGame(s, x, step);
      }
    }
  }

  /** Nothing during the handshake, then the game of the player who holds or last held the turn. */
  ghost predicate Tracked(s: System, rounds: nat, r: Record) {
    if Setup(s, rounds) then r == NOTHING
    else exists x :: Playing(s, x) && OnTrack(GameAt(s, x), r)
  }

  lemma SetupTracked(s: System, rounds: nat, r: Record, step: Step)
    requires Setup(s, rounds) && Ordered(s) && Enabled(s, step) && r == NOTHING && rounds <= 255
    ensures Track(s, r, step) == r && Tracked(Next(s, step), rounds, r)
  {
    SetupStep(s, rounds, step);
    if Ready(Next(s, step), rounds) {
      ReadyIsPlaying(Next(s, step), rounds);
      assert OnTrack(GameAt(Next(s, step), Host), NOTHING);
    }
  }

  lemma {:induction false} RunTracked(s: System, rounds: nat, r: Record, steps: seq<Step>)
    requires rounds <= 255 && Ordered(s) && Tracked(s, rounds, r) && IsRun(s, steps) && NoClientVsEnd(s, steps)
    ensures Tracked(Run(s, steps), rounds, TrackAll(s, r, steps))
    decreases |steps|
  {
    if steps != [] {
      var step := steps[0];
      if Setup(s, rounds) {
        SetupTracked(s, rounds, r, step);
        SetupStep(s, rounds, step);
      } else {
        var x :| Playing(s, x) && OnTrack(GameAt(s, x), r);
        StepTracked(s, x, r, step);
        TalkingStep(s, x, step);
        PlayingStep(s, x, step);
      }
      RunTracked(Next(s, step), rounds, Track(s, r, step), steps[1..]);
    }
  }

  lemma HolderIsPlaying(s: System, x: Side, y: Side)
    requires Talking(s, y) && HasTurn(s, x)
    ensures x == y
  {
  }

  lemma HolderIsTracked(s: System, rounds: nat, r: Record, x: Side)
    requires Tracked(s, rounds, r) && !Setup(s, rounds) && HasTurn(s, x)
    ensures OnTrack(GameAt(s, x), r)
  {
    var y :| Playing(s, y) && OnTrack(GameAt(s, y), r);
    HolderIsPlaying(s, x, y);
  }

  lemma StartIsTracked(rounds: nat, o: Opening)
    requires IsFirst(o)
    ensures Tracked(Start(rounds, o), rounds, NOTHING) && Ordered(Start(rounds, o))
  {
    StartInvariant(rounds, o);
  }

  /**
   On every run in step: the player who holds the turn, or whose bytes are under way with it, is
   on track. In particular all clicks accepted on both PCs are those of the finished turns, each
   of which repeats the whole sequence and adds to it, and of the turn under way.
   */
  lemma TwoPcClickHistory(rounds: nat, o: Opening, steps: seq<Step>, x: Side)
    requires rounds <= 255 && IsFirst(o) && IsRun(Start(rounds, o), steps) && NoClientVsEnd(Start(rounds, o), steps)
    requires var s := Run(Start(rounds, o), steps); s.host.peer.gameStarted && HasTurn(s, x)
    ensures var g, r := GameAt(Run(Start(rounds, o), steps), x), TrackAll(Start(rounds, o), NOTHING, steps);
            && OnTrack(g, r)
            && (!g.gameEnd ==> r.clicks == Known(Whole(r.done), r.bonus, g.guessed))
  {
    var s, r := Run(Start(rounds, o), steps), TrackAll(Start(rounds, o), NOTHING, steps);
    StartIsTracked(rounds, o);
    RunTracked(Start(rounds, o), rounds, NOTHING, steps);
    assert !Setup(s, rounds);
    HolderIsTracked(s, rounds, r, x);
    LiveClicks(GameAt(s, x), r);
  }

  lemma LiveClicks(g: Game, r: Record)
    requires OnTrack(g, r)
    ensures !g.gameEnd ==> r.clicks == Known(Whole(r.done), r.bonus, g.guessed)
  {
  }

  // ---------------------------------------------------------------- the first click that fits no turn

  lemma LosesOnTrack(g: Game, r: Record, c: Click)
    requires OnTrack(g, r) && MyTurn(g) && !g.gameEnd && c != NO_BUTTON
    ensures var g' := LocalClick(g, c).game; g'.gameEnd && g'.ws != Tie <==> MustRepeat(g) && c != g.buttons[g.guessed]
  {
    if MustRepeat(g) {
      RepeatingClick(g, c);
    } else if r.bonus == [] {
      ClosingClick(g, c);
    } else {
      BonusClick(g, c);
    }
  }

  lemma DeviationWhenRepeating(p: T.Past, guessed: nat, c: Click)
    requires p.begin == 0 && guessed < |p.buttons|
    ensures T.CanBegin(p, true, p.buttons[..guessed] + [c]) <==> c == p.buttons[guessed]
  {
    var b, made := p.buttons, p.buttons[..guessed];
    assert b[0..] == b && (made + [c])[guessed] == c;
    if c == b[guessed] {
      assert made + [c] == b[..guessed + 1];
    }
  }

  lemma NoDeviationWhenAdding(p: T.Past, bonus: seq<Click>, c: Click)
    requires p.begin == 0 && (bonus != [] ==> bonus[0] == 5)
    ensures T.CanBegin(p, true, p.buttons + bonus + [c])
  {
    var b, all := p.buttons, p.buttons + bonus + [c];
    assert b[0..] == b && all[..|b|] == b;
    if bonus != [] {
      assert all[|b|] == bonus[0];
    }
  }

  lemma DeviationOnTrack(g: Game, r: Record, c: Click)
    requires OnTrack(g, r) && MyTurn(g) && !g.gameEnd && c != NO_BUTTON
    ensures var p := Whole(r.done);
            var made, e := Known(p, r.bonus, g.guessed)[|p.clicks|..], LocalClick(g, c);
            e.game.gameEnd && e.game.ws != Tie <==> !T.CanBegin(p, true, made + [c])
  {
    var p := Whole(r.done);
    var made := Known(p, r.bonus, g.guessed)[|p.clicks|..];
    LosesOnTrack(g, r, c);
    if MustRepeat(g) {
      assert made == p.buttons[..g.guessed];
      DeviationWhenRepeating(p, g.guessed, c);
    } else {
      assert made == p.buttons + r.bonus;
      NoDeviationWhenAdding(p, r.bonus, c);
    }
  }

  /** A click that a PC accepts loses if and only if no turn can begin with the clicks of this one. */
  lemma TwoPcLossIsFirstDeviation(rounds: nat, o: Opening, steps: seq<Step>, x: Side, c: Click)
    requires rounds <= 255 && IsFirst(o) && IsRun(Start(rounds, o), steps) && NoClientVsEnd(Start(rounds, o), steps)
    requires var s := Run(Start(rounds, o), steps); s.host.peer.gameStarted && CanPlay(At(s, x).peer)
    requires c != NO_BUTTON && Enabled(Run(Start(rounds, o), steps), ClickStep(x, c))
    ensures var s, r := Run(Start(rounds, o), steps), TrackAll(Start(rounds, o), NOTHING, steps);
            var p, g := Whole(r.done), GameAt(Next(s, ClickStep(x, c)), x);
            && |p.clicks| <= |r.clicks|
            && (g.gameEnd && g.ws != Tie <==> !T.CanBegin(p, true, r.clicks[|p.clicks|..] + [c]))
  {
    TwoPcClickHistory(rounds, o, steps, x);
    var s, r := Run(Start(rounds, o), steps), TrackAll(Start(rounds, o), NOTHING, steps);
    DeviationOnTrack(GameAt(s, x), r, c);
  }
}
