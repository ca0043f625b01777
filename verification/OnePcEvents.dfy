/** What single clicks and waiting do in any game on one PC, at any moment of it. */
module OnePcEvents {
  import opened Consts
  import opened OnePcRules
  import opened OnePcRuns
  import T = OnePcTurns
  import opened Ranking

  // ---------------------------------------------------------------- clicks

  /** The player has still to repeat button number `guessed`. */
  predicate MustRepeat(g: Game) {
    g.guessed < |g.buttons| && !g.vsWasPressed
  }

  /** The right button brings the player on and restarts the clock; any other is a loss. */
  lemma RepeatingClick(start: Session, rounds: nat, steps: seq<Step>, c: Click, drawn: bool)
    requires NewGame(start, rounds) && c != NO_BUTTON
    requires var g := Run(start, steps).game; !g.gameEnd && MustRepeat(g)
    ensures var g := Run(start, steps).game;
            Next(Run(start, steps), Press(c, drawn)).game
            == if c != g.buttons[g.guessed] then g.(gameEnd := true, ws := if g.isPlayer1 then Winner2 else Winner1)
               else if g.guessed + 1 == |g.buttons| then g.(guessed := |g.buttons|, timeLeft := -1)
               else g.(guessed := g.guessed + 1, timeLeft := 4)
  {
    EveryGameIsTimed(start, rounds, steps);
  }

  /**
   A click when nothing is left to repeat. The full sequence makes a tie. Any other click is added
   to the sequence: VS opens a VS turn of 6 ticks in a VS round, and any other button hands over.
   */
  lemma ClosingClick(start: Session, rounds: nat, steps: seq<Step>, c: Click, drawn: bool)
    requires NewGame(start, rounds) && c != NO_BUTTON
    requires var g := Run(start, steps).game; !g.gameEnd && g.guessed == |g.buttons|
    ensures var g := Run(start, steps).game;
            var scored, b := g.(playerScore := |g.buttons|), g.buttons + [c];
            Next(Run(start, steps), Press(c, drawn)).game
            == if |g.buttons| == rounds then scored.(gameEnd := true, ws := Tie)
               else if g.isVsRound && c == 5 then scored.(buttons := b, vsWasPressed := true, timeLeft := 6)
               else scored.(buttons := b, guessed := 0, isPlayer1 := !g.isPlayer1, isVsRound := drawn, timeLeft := 4)
  {
    EveryGameIsTimed(start, rounds, steps);
    RoundsKept(start, steps);
  }

  /** A click in a VS turn adds a button and sends the position back; clock and score stay. */
  lemma BonusClick(start: Session, rounds: nat, steps: seq<Step>, c: Click, drawn: bool)
    requires NewGame(start, rounds) && c != NO_BUTTON
    requires var g := Run(start, steps).game; !g.gameEnd && g.vsWasPressed
    ensures var g := Run(start, steps).game;
            Next(Run(start, steps), Press(c, drawn)).game == g.(buttons := g.buttons + [c], guessed := 0)
  {
    EveryGameIsTimed(start, rounds, steps);
  }

  // ---------------------------------------------------------------- waiting

  predicate OnlySeconds(steps: seq<Step>) {
    forall i :: 0 <= i < |steps| ==> steps[i].Second?
  }

  lemma {:induction false} ClockRuns(s: Session, wait: seq<Step>)
    requires !s.game.gameEnd && -1 <= s.game.timeLeft && OnlySeconds(wait)
    requires s.game.timeLeft == -1 || |wait| <= s.game.timeLeft
    ensures Run(s, wait).clicks == s.clicks
    ensures Run(s, wait).game == if s.game.timeLeft == -1 then s.game
                                 else s.game.(timeLeft := s.game.timeLeft - |wait|)
    decreases |wait|
  {
    if wait != [] {
      ClockRuns(Next(s, wait[0]), wait[1..]);
    }
  }

  /** Without a click nothing but the clock changes until it has run out; while it is off, nothing at all. */
  lemma Waiting(start: Session, rounds: nat, steps: seq<Step>, wait: seq<Step>)
    requires NewGame(start, rounds) && !Run(start, steps).game.gameEnd && OnlySeconds(wait)
    requires var t := Run(start, steps).game.timeLeft; t == -1 || |wait| <= t
    ensures var s := Run(start, steps);
            Run(s, wait) == if s.game.timeLeft == -1 then s
                            else s.(game := s.game.(timeLeft := s.game.timeLeft - |wait|))
  {
    EveryGameIsTimed(start, rounds, steps);
    ClockRuns(Run(start, steps), wait);
  }

  /** At the tick after that the player has lost, or the VS turn is over and the other player has 4 ticks. */
  lemma TimeIsUp(start: Session, rounds: nat, steps: seq<Step>, wait: seq<Step>, last: Step)
    requires NewGame(start, rounds) && !Run(start, steps).game.gameEnd && OnlySeconds(wait) && last.Second?
    requires Run(start, steps).game.timeLeft == |wait|
    ensures var g := Run(start, steps).game;
            var g' := Next(Run(Run(start, steps), wait), last).game;
            if g.vsWasPressed
            then g' == g.(isPlayer1 := !g.isPlayer1, vsWasPressed := false, isVsRound := last.drawn, timeLeft := 4)
            else
              && g'.gameEnd && g'.ws == (if g.isPlayer1 then Winner2 else Winner1)
              && g' == g.(timeLeft := 0, gameEnd := true, ws := g'.ws, screen := g'.screen)
              && (g'.screen == NameScreen <==> g.playerScore > last.lowest)
  {
    EveryGameIsTimed(start, rounds, steps);
    Waiting(start, rounds, steps, wait);
  }

  // ---------------------------------------------------------------- the end

  /** A game that has ended leaves its screen at a tick or ENTER: a name is asked for exactly when the result is entered. */
  lemma NameIsAskedIffEntered(g: Game, board: seq<Entry>, e: Entry)
    requires g.gameEnd && |board| == SIZE && e.score == g.playerScore
    ensures var screen := LeaveIfEnded(g, board[SIZE - 1].score).screen;
            && screen != PlayScreen
            && (screen == NameScreen <==> Finish(board, Finished(g.ws, e)) != board)
  {
    if e.score > board[SIZE - 1].score {
      SubmitChanges(board, e);
    }
  }

  // ---------------------------------------------------------------- the score

  /** The number of buttons repeated last: before the VS turn under way, or in the last finished turn. */
  function LastRepeated(c: T.Course): nat {
    if c.bonus != [] then |T.PastOf(c.done).buttons|
    else if c.done == [] then 0
    else |T.PastOf(c.done[..|c.done| - 1]).buttons|
  }

  predicate ScoreKnown(g: Game, c: T.Course) {
    g.playerScore == if IsTied(g) then |g.buttons| else LastRepeated(c)
  }

  lemma ScoreAfterExtend(g: Game, c: T.Course, click: Click, drawn: bool)
    requires T.OnCourse(g, c) && T.IsClickOf(g, click, {Extend})
    ensures ScoreKnown(ClickButton(g, click, drawn), T.NextCourse(g, c, Press(click, drawn)))
  {
    var done := c.done + [T.Turn([click], false)];
    assert done[..|done| - 1] == c.done;
    assert |g.buttons| == |T.PastOf(c.done).buttons|;
  }

  lemma ScoreAfterPress(g: Game, c: T.Course, click: Click, drawn: bool)
    requires Timed(g) && T.OnCourse(g, c) && ScoreKnown(g, c) && !g.gameEnd && click != NO_BUTTON
    ensures ScoreKnown(ClickButton(g, click, drawn), T.NextCourse(g, c, Press(click, drawn)))
  {
    if Classify(g, click) == Extend {
      ScoreAfterExtend(g, c, click, drawn);
    } else {
      var c' := T.NextCourse(g, c, Press(click, drawn));
      assert c'.done == c.done;
      assert c.bonus == [] ==> |g.buttons| == |T.PastOf(c.done).buttons|;
    }
  }

  lemma ScoreAfterStep(s: Session, c: T.Course, step: Step)
    requires Timed(s.game) && Settled(s.game) && T.OnCourse(s.game, c) && ScoreKnown(s.game, c)
    ensures ScoreKnown(Next(s, step).game, T.NextCourse(s.game, c, step))
  {
    if step.Second? {
      var done := c.done + [T.Turn(c.bonus, true)];
      assert done[..|done| - 1] == c.done;
    } else if !s.game.gameEnd && step.click != NO_BUTTON {
      ScoreAfterPress(s.game, c, step.click, step.drawn);
    }
  }

  lemma {:induction false} ScoreAlong(s: Session, c: T.Course, steps: seq<Step>)
    requires Timed(s.game) && Settled(s.game) && T.OnCourse(s.game, c) && T.ClicksOnCourse(s, c) && ScoreKnown(s.game, c)
    ensures ScoreKnown(Run(s, steps).game, T.CourseOf(s, c, steps))
    decreases |steps|
  {
    if steps != [] {
      StepTimed(s, steps[0]);
      T.StepOnCourse(s, c, steps[0]);
      ScoreAfterStep(s, c, steps[0]);
      ScoreAlong(Next(s, steps[0]), T.NextCourse(s.game, c, steps[0]), steps[1..]);
    }
  }

  /** At any moment of any game the score is the length of the sequence that was repeated last. */
  lemma ScoreIsLastRepeated(start: Session, rounds: nat, steps: seq<Step>)
    requires NewGame(start, rounds)
    ensures ScoreKnown(Run(start, steps).game, T.CourseOf(start, T.NO_TURNS, steps))
  {
    ScoreAlong(start, T.NO_TURNS, steps);
  }
}
