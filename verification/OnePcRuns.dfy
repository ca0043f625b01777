/** Whole games on one PC: timer, result, and the closed form of the clicks. */
module OnePcRuns {
  import opened Consts
  import opened OnePcRules

  datatype Step =
    | Press(click: Click, drawn: bool)
    | Second(drawn: bool, lowest: int)

  /** A game and the buttons pressed in it so far. */
  datatype Session = Session(game: Game, clicks: seq<Click>)

  /** Right after reset_game. */
  predicate NewGame(s: Session, rounds: nat) {
    s == Session(Game(true, [], rounds, 0, 0, -1, s.game.isVsRound, false, false, s.game.ws, s.game.screen), [])
  }

  /** The screen is not looked at here: what follows holds however often the clock ticks. */
  function Next(s: Session, step: Step): Session {
    match step
    case Press(c, drawn) =>
      if s.game.gameEnd then s
      else Session(ClickButton(s.game, c, drawn), if c == NO_BUTTON then s.clicks else s.clicks + [c])
    case Second(drawn, lowest) => s.(game := Tick(s.game, drawn, lowest))
  }

  function Run(s: Session, steps: seq<Step>): Session
    decreases |steps|
  {
    if steps == [] then s else Run(Next(s, steps[0]), steps[1..])
  }

  // ---------------------------------------------------------------- the timer

  /** How the timer, the position and the VS flags go together. */
  predicate Timed(g: Game) {
    && g.guessed <= |g.buttons|
    && (g.vsWasPressed ==>
          && g.isVsRound && g.guessed < |g.buttons| && g.guessed != g.maxButtonsSize && 0 <= g.timeLeft <= 6
          && (g.guessed == 0 || (g.guessed == |g.buttons| - 1 && g.buttons[g.guessed] == VS_B)))
    && (!g.vsWasPressed ==> -1 <= g.timeLeft <= 4)
    && (g.timeLeft == -1 <==> g.guessed == |g.buttons| && !g.vsWasPressed)
    && (g.maxButtonsSize == 0 ==> g.buttons == [])
  }

  /** Once the game has ended, its result fits the position it ended in. */
  predicate Settled(g: Game) {
    g.gameEnd ==> !g.vsWasPressed && if g.ws == Tie then g.timeLeft == -1 else g.ws == Opponent(g.isPlayer1)
  }

  lemma PressTimed(g: Game, c: Click, drawn: bool)
    requires Timed(g) && Settled(g) && !g.gameEnd
    ensures Timed(ClickButton(g, c, drawn)) && Settled(ClickButton(g, c, drawn))
  {
  }

  lemma StepTimed(s: Session, step: Step)
    requires Timed(s.game) && Settled(s.game)
    ensures Timed(Next(s, step).game) && Settled(Next(s, step).game)
    ensures s.game.gameEnd ==> Next(s, step).game.gameEnd && Next(s, step).game.ws == s.game.ws
  {
    if step.Press? && !s.game.gameEnd {
      PressTimed(s.game, step.click, step.drawn);
    }
  }

  /** Holds at every moment of every game, VS turns included. */
  lemma {:induction false} TimerPhase(s: Session, steps: seq<Step>)
    requires Timed(s.game) && Settled(s.game)
    ensures Timed(Run(s, steps).game) && Settled(Run(s, steps).game)
    decreases |steps|
  {
    if steps != [] {
      StepTimed(s, steps[0]);
      TimerPhase(Next(s, steps[0]), steps[1..]);
    }
  }

  lemma EveryGameIsTimed(start: Session, rounds: nat, steps: seq<Step>)
    requires NewGame(start, rounds)
    ensures Timed(Run(start, steps).game)
    ensures Settled(Run(start, steps).game)
  {
    TimerPhase(start, steps);
  }

  lemma {:induction false} EndedStaysEnded(s: Session, steps: seq<Step>)
    requires Timed(s.game) && Settled(s.game) && s.game.gameEnd
    ensures Run(s, steps).game.gameEnd && Run(s, steps).game.ws == s.game.ws && Run(s, steps).clicks == s.clicks
    decreases |steps|
  {
    if steps != [] {
      StepTimed(s, steps[0]);
      EndedStaysEnded(Next(s, steps[0]), steps[1..]);
    }
  }

  /** The ticks go on after the end of a game, but no tick and no click changes its result. */
  lemma ResultIsFinal(start: Session, rounds: nat, steps: seq<Step>, more: seq<Step>)
    requires NewGame(start, rounds) && Run(start, steps).game.gameEnd
    ensures var s := Run(start, steps);
            Run(s, more).game.gameEnd && Run(s, more).game.ws == s.game.ws && Run(s, more).clicks == s.clicks
  {
    EveryGameIsTimed(start, rounds, steps);
    EndedStaysEnded(Run(start, steps), more);
  }

  // ---------------------------------------------------------------- VS turns

  /** A step that opens a VS turn. */
  predicate StartsVs(g: Game, step: Step) {
    step.Press? && !g.gameEnd && step.click == VS_B && Classify(g, VS_B) == StartVs
  }

  /** The VS turn that is under way lasts during all of the steps. */
  predicate StaysInTurn(s: Session, steps: seq<Step>)
    decreases |steps|
  {
    s.game.vsWasPressed && (steps == [] || StaysInTurn(Next(s, steps[0]), steps[1..]))
  }

  predicate IsClick(step: Step) {
    step.Press? && step.click != NO_BUTTON
  }

  predicate AnyClick(steps: seq<Step>) {
    exists i :: 0 <= i < |steps| && IsClick(steps[i])
  }

  lemma {:induction false} PositionInTurn(s: Session, steps: seq<Step>)
    requires Timed(s.game) && Settled(s.game) && StaysInTurn(s, steps)
    ensures Run(s, steps).game.vsWasPressed
    ensures Run(s, steps).game.guessed == 0 <==> s.game.guessed == 0 || AnyClick(steps)
    decreases |steps|
  {
    if steps != [] {
      StepTimed(s, steps[0]);
      PositionInTurn(Next(s, steps[0]), steps[1..]);
      assert AnyClick(steps) <==> IsClick(steps[0]) || AnyClick(steps[1..]) by {
        if AnyClick(steps[1..]) {
          var i :| 0 <= i < |steps[1..]| && IsClick(steps[1..][i]);
          assert IsClick(steps[i + 1]);
        }
        if AnyClick(steps) && !IsClick(steps[0]) {
          var i :| 0 <= i < |steps| && IsClick(steps[i]);
          assert IsClick(steps[1..][i - 1]);
        }
      }
    }
  }

  /**
   When a VS turn ends, the next player starts from the beginning if and only if a button was
   clicked in it, or there was nothing to repeat before it. Otherwise only the VS button is left.
   */
  lemma AfterVsTurn(start: Session, rounds: nat, before: seq<Step>, open: Step, during: seq<Step>, last: Step)
    requires NewGame(start, rounds) && StartsVs(Run(start, before).game, open)
    requires StaysInTurn(Next(Run(start, before), open), during) && last.Second?
    requires Run(Next(Run(start, before), open), during).game.timeLeft == 0
    ensures var g0, s := Run(start, before).game, Run(Next(Run(start, before), open), during);
            var g := Next(s, last).game;
            && g.isPlayer1 != s.game.isPlayer1 && !g.gameEnd && !g.vsWasPressed && g.timeLeft == INTERVAL
            && (g.guessed == 0 <==> g0.buttons == [] || AnyClick(during))
            && (g.guessed != 0 ==>
                  forall c: Click :: c != NO_BUTTON ==> Classify(g, c) == if c == VS_B then Match else Mistake)
  {
    EveryGameIsTimed(start, rounds, before);
    var s1 := Next(Run(start, before), open);
    StepTimed(Run(start, before), open);
    TimerPhase(s1, during);
    PositionInTurn(s1, during);
  }

  lemma {:induction false} SecondsPass(s: Session, n: nat) returns (steps: seq<Step>)
    requires s.game.vsWasPressed && s.game.timeLeft == n && !s.game.gameEnd
    ensures StaysInTurn(s, steps) && !AnyClick(steps)
    ensures Run(s, steps) == s.(game := s.game.(timeLeft := 0))
    decreases n
  {
    if n == 0 {
      steps := [];
    } else {
      var step := Second(true, 0);
      var rest := SecondsPass(Next(s, step), n - 1);
      steps := [step] + rest;
      assert steps[1..] == rest;
      forall i | 0 <= i < |steps| ensures !IsClick(steps[i]) {
        assert i > 0 ==> steps[i] == rest[i - 1];
      }
    }
  }

  /** Such a turn exists in every game of two or more rounds: the next player starts behind the first button. */
  lemma VsTurnCanEndLate(start: Session, rounds: nat)
    returns (before: seq<Step>, open: Step, during: seq<Step>)
    requires NewGame(start, rounds) && rounds >= 2
    ensures StartsVs(Run(start, before).game, open)
    ensures var s1 := Next(Run(start, before), open);
            && StaysInTurn(s1, during) && Run(s1, during).game.timeLeft == 0
            && Next(Run(s1, during), Second(true, 0)).game.guessed == 1
  {
    var first := Press(0, true);
    before, open := [first, first], Press(VS_B, true);
    var s1 := Next(start, first);
    assert before[1..] == [first] && [first][1..] == [];
    assert Run(start, before) == Run(s1, [first]) == Run(Next(s1, first), []) == Next(s1, first);
    assert s1.game.buttons == [0] && Next(s1, first).game.guessed == 1;
    during := SecondsPass(Next(Run(start, before), open), VS_INTERVAL);
  }

  // ---------------------------------------------------------------- room for the buttons

  /** A click in a VS turn that adds a button to a full sequence; it is the only one that is not checked. */
  predicate Overfills(g: Game, step: Step) {
    step.Press? && !g.gameEnd && step.click != NO_BUTTON
    && Classify(g, step.click) == Bonus && |g.buttons| >= g.maxButtonsSize
  }

  predicate AnyOverfill(s: Session, steps: seq<Step>)
    decreases |steps|
  {
    steps != [] && (Overfills(s.game, steps[0]) || AnyOverfill(Next(s, steps[0]), steps[1..]))
  }

  predicate IsTied(g: Game) {
    g.gameEnd && g.ws == Tie
  }

  /** As long as the sequence fits: only a tie has the full score. */
  predicate Fits(g: Game) {
    && |g.buttons| <= g.maxButtonsSize
    && (if IsTied(g) then g.playerScore == g.maxButtonsSize
        else g.playerScore <= g.maxButtonsSize && (g.playerScore == g.maxButtonsSize ==> g.maxButtonsSize == 0))
  }

  lemma FitsStep(s: Session, step: Step)
    requires Timed(s.game) && Settled(s.game) && Fits(s.game)
    ensures if Overfills(s.game, step) then |Next(s, step).game.buttons| > s.game.maxButtonsSize && !IsTied(Next(s, step).game)
            else Fits(Next(s, step).game)
  {
  }

  lemma TooManyStep(s: Session, step: Step)
    requires Timed(s.game) && Settled(s.game) && |s.game.buttons| > s.game.maxButtonsSize && !IsTied(s.game)
    ensures |Next(s, step).game.buttons| > s.game.maxButtonsSize && !IsTied(Next(s, step).game)
  {
  }

  lemma {:induction false} TooManyForever(s: Session, steps: seq<Step>)
    requires Timed(s.game) && Settled(s.game) && |s.game.buttons| > s.game.maxButtonsSize && !IsTied(s.game)
    ensures |Run(s, steps).game.buttons| > s.game.maxButtonsSize && !IsTied(Run(s, steps).game)
    decreases |steps|
  {
    if steps != [] {
      StepTimed(s, steps[0]);
      TooManyStep(s, steps[0]);
      RoundsKept(s, steps[..1]);
      TooManyForever(Next(s, steps[0]), steps[1..]);
    }
  }

  lemma {:induction false} FitsUnlessOverfilled(s: Session, steps: seq<Step>)
    requires Timed(s.game) && Settled(s.game) && Fits(s.game)
    ensures if AnyOverfill(s, steps)
            then |Run(s, steps).game.buttons| > s.game.maxButtonsSize && !IsTied(Run(s, steps).game)
            else Fits(Run(s, steps).game)
    decreases |steps|
  {
    if steps != [] {
      StepTimed(s, steps[0]);
      FitsStep(s, steps[0]);
      RoundsKept(s, steps[..1]);
      if Overfills(s.game, steps[0]) {
        TooManyForever(Next(s, steps[0]), steps[1..]);
      } else {
        FitsUnlessOverfilled(Next(s, steps[0]), steps[1..]);
      }
    }
  }

  /**
   In every game, VS turns included: the sequence stays within the number of rounds if and only
   if no click overfills it. Then a full score is a tie and nobody scores more; otherwise the
   game cannot be tied any more.
   */
  lemma Capacity(start: Session, rounds: nat, steps: seq<Step>)
    requires NewGame(start, rounds)
    ensures var g := Run(start, steps).game;
            && (|g.buttons| <= rounds <==> !AnyOverfill(start, steps))
            && (AnyOverfill(start, steps) ==> !IsTied(g))
            && (!AnyOverfill(start, steps) ==>
                  g.playerScore <= rounds && (rounds > 0 ==> (g.playerScore == rounds <==> IsTied(g))))
  {
    FitsUnlessOverfilled(start, steps);
    RoundsKept(start, steps);
  }

  lemma {:induction false} RoundsKept(s: Session, steps: seq<Step>)
    ensures Run(s, steps).game.maxButtonsSize == s.game.maxButtonsSize
    decreases |steps|
  {
    if steps != [] {
      RoundsKept(Next(s, steps[0]), steps[1..]);
    }
  }

  /** Some run leads from `s` to `t`. */
  ghost predicate Leads(s: Session, t: Session) {
    exists steps :: t == Run(s, steps)
  }

  lemma {:induction false} RunAppend(s: Session, a: seq<Step>, b: seq<Step>)
    ensures Run(s, a + b) == Run(Run(s, a), b)
    decreases |a|
  {
    if a == [] {
      assert a + b == b;
    } else {
      assert (a + b)[0] == a[0] && (a + b)[1..] == a[1..] + b;
      RunAppend(Next(s, a[0]), a[1..], b);
    }
  }

  lemma LeadsNext(s: Session, t: Session, step: Step)
    requires Leads(s, t)
    ensures Leads(s, Next(t, step))
  {
    var steps :| t == Run(s, steps);
    RunAppend(s, steps, [step]);
    assert Run(t, [step]) == Run(Next(t, step), []);
  }

  /** In a VS turn any number of buttons can be added. */
  lemma {:induction false} BonusesCanFollow(s: Session, t: Session, n: nat) returns (t': Session)
    requires Leads(s, t) && Timed(t.game) && Settled(t.game) && t.game.vsWasPressed && n > 0
    ensures Leads(s, t') && Timed(t'.game) && Settled(t'.game) && t'.game.vsWasPressed && t'.game.guessed == 0
    ensures t'.game.timeLeft == t.game.timeLeft && t'.game.maxButtonsSize == t.game.maxButtonsSize
    ensures |t'.game.buttons| == |t.game.buttons| + n
    ensures NO_BUTTON !in t.game.buttons ==> NO_BUTTON !in t'.game.buttons
    decreases n
  {
    StepTimed(t, Press(0, true));
    LeadsNext(s, t, Press(0, true));
    t' := Next(t, Press(0, true));
    if n > 1 {
      t' := BonusesCanFollow(s, t', n - 1);
    }
  }

  lemma {:induction false} TurnRunsOut(s: Session, t: Session, n: nat) returns (t': Session)
    requires Leads(s, t) && t.game.vsWasPressed && t.game.isVsRound && t.game.timeLeft == n && !t.game.gameEnd
    ensures Leads(s, t') && t' == t.(game := Pass(t.game, true))
    decreases n
  {
    LeadsNext(s, t, Second(true, 0));
    t' := Next(t, Second(true, 0));
    if n > 0 {
      t' := TurnRunsOut(s, t', n - 1);
    }
  }

  lemma {:induction false} AllCanBeRepeated(s: Session, t: Session) returns (t': Session)
    requires Leads(s, t) && !t.game.vsWasPressed && !t.game.gameEnd && t.game.guessed <= |t.game.buttons|
    requires NO_BUTTON !in t.game.buttons
    ensures Leads(s, t') && t'.game == t.game.(guessed := |t.game.buttons|, timeLeft := t'.game.timeLeft)
    decreases |t.game.buttons| - t.game.guessed
  {
    t' := t;
    if t.game.guessed < |t.game.buttons| {
      var step := Press(t.game.buttons[t.game.guessed], true);
      LeadsNext(s, t, step);
      t' := AllCanBeRepeated(s, Next(t, step));
    }
  }

  /** The first player adds a button, and the second repeats it. */
  lemma FirstButtonCanBeRepeated(start: Session, rounds: nat) returns (t: Session)
    requires NewGame(start, rounds) && rounds >= 2
    ensures Leads(start, t)
    ensures t.game == Game(false, [0], rounds, 1, 0, -1, true, false, false, start.game.ws, start.game.screen)
  {
    assert Run(start, []) == start;
    LeadsNext(start, start, Press(0, true));
    t := Next(start, Press(0, true));
    assert t.game == Game(false, [0], rounds, 0, 0, INTERVAL, true, false, false, start.game.ws, start.game.screen);
    LeadsNext(start, t, Press(0, true));
    t := Next(t, Press(0, true));
  }

  /** The second player then opens a VS turn. */
  lemma VsTurnCanOpen(start: Session, rounds: nat) returns (t: Session)
    requires NewGame(start, rounds) && rounds >= 2
    ensures Leads(start, t) && Timed(t.game) && Settled(t.game) && t.game.vsWasPressed && !t.game.gameEnd
    ensures t.game.buttons == [0, VS_B] && t.game.timeLeft == VS_INTERVAL && t.game.maxButtonsSize == rounds
  {
    t := FirstButtonCanBeRepeated(start, rounds);
    LeadsNext(start, t, Press(VS_B, true));
    t := Next(t, Press(VS_B, true));
  }

  /** In every game of two or more rounds a player can score more than the number of rounds and play on. */
  lemma ScoreCanExceedRounds(start: Session, rounds: nat) returns (t: Session)
    requires NewGame(start, rounds) && rounds >= 2
    ensures Leads(start, t) && !t.game.gameEnd && t.game.playerScore == rounds + 1 < |t.game.buttons|
  {
    t := VsTurnCanOpen(start, rounds);
    t := BonusesCanFollow(start, t, rounds - 1);
    t := TurnRunsOut(start, t, VS_INTERVAL);
    t := AllCanBeRepeated(start, t);
    LeadsNext(start, t, Press(0, true));
    t := Next(t, Press(0, true));
  }

  // ---------------------------------------------------------------- the clicks of a game without VS turns

  function Triangle(n: nat): nat {
    if n == 0 then 0 else Triangle(n - 1) + n
  }

  lemma {:induction false} TriangleIs(n: nat)
    ensures Triangle(n) == n * (n + 1) / 2
  {
    if n > 0 {
      TriangleIs(n - 1);
      assert n * (n + 1) == (n - 1) * n + 2 * n;
    }
  }

  lemma {:induction false} TriangleGrows(m: nat, n: nat)
    requires m < n
    ensures Triangle(m) + m < Triangle(n)
  {
    if m < n - 1 {
      TriangleGrows(m, n - 1);
    }
  }

  /** The clicks of the finished turns: turn k repeats the first k buttons and adds the next one. */
  function Turns(buttons: seq<Click>): (h: seq<Click>)
    ensures |h| == Triangle(|buttons|)
    decreases |buttons|
  {
    if buttons == [] then [] else Turns(buttons[..|buttons| - 1]) + buttons
  }

  /** All clicks of a game in which `guessed` buttons of the current turn have been repeated. */
  function History(buttons: seq<Click>, guessed: nat): seq<Click>
    requires guessed <= |buttons|
  {
    Turns(buttons) + buttons[..guessed]
  }

  ghost predicate Conforms(clicks: seq<Click>) {
    exists b, k | 0 <= k <= |b| :: clicks == History(b, k)
  }

  /** Click number Triangle(k) + j is button j, for every finished turn k and for the current one. */
  lemma {:induction false} ClickIndex(b: seq<Click>, guessed: nat, k: nat, j: nat)
    requires guessed <= |b| && (if k < |b| then j <= k else k == |b| && j < guessed)
    ensures Triangle(k) + j < |History(b, guessed)| && History(b, guessed)[Triangle(k) + j] == b[j]
    decreases |b|
  {
    if k < |b| {
      var most := b[..|b| - 1];
      if k == |b| - 1 {
        assert Turns(b) == Turns(most) + b;
      } else {
        ClickIndex(most, 0, k, j);
        assert History(most, 0) == Turns(most);
      }
    }
  }

  /** Button j was added by click number (j + 1)(j + 2) / 2, counted from 1. */
  lemma ButtonAddedAt(b: seq<Click>, guessed: nat, j: nat)
    requires guessed <= |b| && j < |b|
    ensures var n := (j + 1) * (j + 2) / 2;
            1 <= n <= |History(b, guessed)| && History(b, guessed)[n - 1] == b[j]
  {
    ClickIndex(b, guessed, j, j);
    TriangleIs(j + 1);
  }

  /** The clicks determine the sequence and the position. */
  lemma HistoryIsInjective(b: seq<Click>, k: nat, b': seq<Click>, k': nat)
    requires k <= |b| && k' <= |b'| && History(b, k) == History(b', k')
    ensures b == b' && k == k'
  {
    if |b| < |b'| {
      TriangleGrows(|b|, |b'|);
    } else if |b'| < |b| {
      TriangleGrows(|b'|, |b|);
    }
    assert Turns(b) == History(b, k)[..Triangle(|b|)] == Turns(b');
    if b != [] {
      assert b == Turns(b)[Triangle(|b| - 1)..];
      assert b' == Turns(b')[Triangle(|b| - 1)..];
    }
  }

  predicate VsFree(s: Session, steps: seq<Step>)
    decreases |steps|
  {
    steps == [] || (!StartsVs(s.game, steps[0]) && VsFree(Next(s, steps[0]), steps[1..]))
  }

  /** A game without VS turns. */
  predicate Plain(g: Game) {
    && !g.vsWasPressed && g.guessed <= |g.buttons| <= g.maxButtonsSize
    && (g.isPlayer1 <==> |g.buttons| % 2 == 0)
    && (g.timeLeft == -1 <==> g.guessed == |g.buttons|) && g.timeLeft >= -1
    && (g.gameEnd && g.ws == Tie ==> g.guessed == |g.buttons| == g.maxButtonsSize)
    && (g.gameEnd && g.ws != Tie ==> g.ws == Opponent(g.isPlayer1) && g.guessed < |g.buttons|)
  }

  /** Its clicks are the history of the sequence, and perhaps the one that ended the game. */
  predicate ClicksFit(g: Game, h: seq<Click>)
    requires g.guessed <= |g.buttons|
  {
    var known := History(g.buttons, g.guessed);
    var oneMore := h != [] && h[..|h| - 1] == known;
    if !g.gameEnd then h == known
    else if g.ws == Tie then oneMore
    else h == known || (oneMore && (g.guessed < |g.buttons| ==> h[|h| - 1] != g.buttons[g.guessed]))
  }

  predicate Tracked(s: Session) {
    Plain(s.game) && ClicksFit(s.game, s.clicks)
  }

  lemma TickPlain(g: Game, drawn: bool)
    requires Plain(g)
    ensures var g' := PlayerTick(g, drawn);
            && Plain(g') && g'.buttons == g.buttons && g'.guessed == g.guessed
            && (if g.gameEnd then g'.gameEnd && g'.ws == g.ws else g'.gameEnd ==> g'.ws != Tie)
  {
  }

  lemma TickTracked(s: Session, drawn: bool, lowest: int)
    requires Tracked(s)
    ensures Tracked(Next(s, Second(drawn, lowest)))
  {
    TickPlain(s.game, drawn);
  }

  lemma ClickPlain(g: Game, c: Click, drawn: bool)
    requires Plain(g) && !g.gameEnd && c != NO_BUTTON && Classify(g, c) != StartVs
    ensures Plain(ClickButton(g, c, drawn))
  {
  }

  lemma HistoryGrows(b: seq<Click>, k: nat, c: Click)
    requires k <= |b|
    ensures k < |b| && c == b[k] ==> History(b, k) + [c] == History(b, k + 1)
    ensures k == |b| ==> History(b, k) + [c] == History(b + [c], 0)
  {
    if k < |b| {
      assert b[..k + 1] == b[..k] + [b[k]];
    } else {
      var b' := b + [c];
      assert b'[..|b'| - 1] == b && b[..k] == b && b'[..0] == [];
    }
  }

  lemma ClickFits(g: Game, h: seq<Click>, c: Click, drawn: bool)
    requires Plain(g) && !g.gameEnd && c != NO_BUTTON && Classify(g, c) != StartVs
    requires ClicksFit(g, h) && Plain(ClickButton(g, c, drawn))
    ensures ClicksFit(ClickButton(g, c, drawn), h + [c])
  {
    assert (h + [c])[..|h|] == h;
    HistoryGrows(g.buttons, g.guessed, c);
  }

  lemma ClickTracked(s: Session, c: Click, drawn: bool)
    requires Tracked(s) && !s.game.gameEnd && c != NO_BUTTON && !StartsVs(s.game, Press(c, drawn))
    ensures Tracked(Next(s, Press(c, drawn)))
  {
    ClickPlain(s.game, c, drawn);
    ClickFits(s.game, s.clicks, c, drawn);
  }

  lemma StepTracked(s: Session, step: Step)
    requires Tracked(s) && !StartsVs(s.game, step)
    ensures Tracked(Next(s, step))
  {
    match step
    case Second(drawn, lowest) => TickTracked(s, drawn, lowest);
    case Press(c, drawn) =>
      if !s.game.gameEnd && c != NO_BUTTON {
        ClickTracked(s, c, drawn);
      }
  }

  lemma {:induction false} RunTracked(s: Session, steps: seq<Step>)
    requires Tracked(s) && VsFree(s, steps)
    ensures Tracked(Run(s, steps))
    decreases |steps|
  {
    if steps != [] {
      StepTracked(s, steps[0]);
      RunTracked(Next(s, steps[0]), steps[1..]);
    }
  }

  /** In a live game without VS turns the clicks are exactly the history of the sequence. */
  lemma ClickHistory(start: Session, rounds: nat, steps: seq<Step>)
    requires NewGame(start, rounds) && VsFree(start, steps)
    ensures var s := Run(start, steps);
            && Tracked(s)
            && (!s.game.gameEnd ==>
                  && s.clicks == History(s.game.buttons, s.game.guessed)
                  && |s.clicks| == |s.game.buttons| * (|s.game.buttons| + 1) / 2 + s.game.guessed)
  {
    var s := Run(start, steps);
    assert History([], 0) == [];
    RunTracked(start, steps);
    TriangleIs(|s.game.buttons|);
  }

  lemma DeviationDoesNotConform(b: seq<Click>, k: nat, c: Click)
    requires k < |b| && c != b[k]
    ensures !Conforms(History(b, k) + [c])
  {
    if Conforms(History(b, k) + [c]) {
      var b', k' :| 0 <= k' <= |b'| && History(b, k) + [c] == History(b', k');
      assert |b'| == |b| && k' == k + 1 by {
        if |b| < |b'| {
          TriangleGrows(|b|, |b'|);
        } else if |b'| < |b| {
          TriangleGrows(|b'|, |b|);
        }
      }
      assert Turns(b) == History(b', k')[..Triangle(|b|)] == Turns(b');
      assert History(b, 0) == Turns(b) && History(b', 0) == Turns(b');
      assert (History(b, k) + [c])[|Turns(b)| + k] == c && History(b', k')[|Turns(b')| + k] == b'[k];
      HistoryIsInjective(b, 0, b', 0);
    }
  }

  lemma RightClickConforms(b: seq<Click>, k: nat, c: Click)
    requires k <= |b| && (k < |b| ==> c == b[k])
    ensures Conforms(History(b, k) + [c])
  {
    HistoryGrows(b, k, c);
  }

  lemma ClickLosesIff(g: Game, c: Click, drawn: bool)
    requires !g.gameEnd && !g.vsWasPressed && c != NO_BUTTON
    ensures var g' := ClickButton(g, c, drawn);
            g'.gameEnd && g'.ws != Tie <==> g.guessed < |g.buttons| && c != g.buttons[g.guessed]
  {
  }

  /** A click loses the game exactly when it is the first one that does not conform; a tick never is. */
  lemma LossIsFirstDeviation(start: Session, rounds: nat, steps: seq<Step>, c: Click, next: bool)
    requires NewGame(start, rounds) && VsFree(start, steps) && c != NO_BUTTON
    requires !Run(start, steps).game.gameEnd
    requires !StartsVs(Run(start, steps).game, Press(c, next))
    ensures var s := Run(start, steps);
            var g := Next(s, Press(c, next)).game;
            && Conforms(s.clicks)
            && (g.gameEnd && g.ws != Tie <==> !Conforms(s.clicks + [c]))
  {
    ClickHistory(start, rounds, steps);
    var s := Run(start, steps);
    var b, k := s.game.buttons, s.game.guessed;
    assert s.clicks == History(b, k) && Conforms(s.clicks);
    ClickLosesIff(s.game, c, next);
    if k < |b| && c != b[k] {
      DeviationDoesNotConform(b, k, c);
    } else {
      RightClickConforms(b, k, c);
    }
  }

  /** The number of clicks of a complete game. */
  function LastClick(rounds: nat): nat {
    (rounds + 1) * (rounds + 2) / 2
  }

  /** A game without VS turns has at most LastClick clicks, and has that many exactly when it is a tie. */
  lemma TieAtLastClick(start: Session, rounds: nat, steps: seq<Step>)
    requires NewGame(start, rounds) && VsFree(start, steps)
    ensures var s := Run(start, steps);
            && |s.clicks| <= LastClick(rounds)
            && (|s.clicks| == LastClick(rounds) <==> s.game.gameEnd && s.game.ws == Tie)
  {
    ClickHistory(start, rounds, steps);
    RoundsKept(start, steps);
    var s := Run(start, steps);
    TriangleIs(rounds + 1);
    if |s.game.buttons| < rounds {
      TriangleGrows(|s.game.buttons|, rounds);
    }
  }

  /** Without VS turns every click that the game survives brings its end nearer. */
  lemma ClickMakesProgress(start: Session, rounds: nat, steps: seq<Step>, c: Click, drawn: bool)
    requires NewGame(start, rounds) && VsFree(start, steps) && c != NO_BUTTON
    requires !Run(start, steps).game.gameEnd && !StartsVs(Run(start, steps).game, Press(c, drawn))
    ensures var g, g' := Run(start, steps).game, Next(Run(start, steps), Press(c, drawn)).game;
            g'.gameEnd || (rounds - |g.buttons|, |g.buttons| - g.guessed
                           decreases to rounds - |g'.buttons|, |g'.buttons| - g'.guessed)
  {
    ClickHistory(start, rounds, steps);
    RoundsKept(start, steps);
  }
}
