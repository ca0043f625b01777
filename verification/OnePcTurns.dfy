/** The clicks of any game on one PC, VS turns included, turn by turn. */
module OnePcTurns {
  import opened Consts
  import opened OnePcRules
  import opened OnePcRuns

  // ---------------------------------------------------------------- turns

  /** A finished turn: the buttons it added, after those it repeated. */
  datatype Turn = Turn(added: seq<Click>, vs: bool)

  predicate IsTurn(turn: Turn) {
    if turn.vs then turn.added != [] && turn.added[0] == VS_B else |turn.added| == 1
  }

  /** What finished turns leave: the sequence, the position where the next turn starts, and all clicks. */
  datatype Past = Past(buttons: seq<Click>, begin: nat, clicks: seq<Click>)

  predicate IsPast(p: Past) {
    p.begin <= |p.buttons|
  }

  /**
   A turn repeats the sequence from where it starts, and adds to it. The next one starts at 0,
   but behind the repeated buttons after a VS turn without another click.
   */
  function After(p: Past, turn: Turn): Past
    requires IsPast(p)
  {
    Past(p.buttons + turn.added,
         if turn.vs && |turn.added| == 1 then |p.buttons| else 0,
         p.clicks + p.buttons[p.begin..] + turn.added)
  }

  function PastOf(done: seq<Turn>): (p: Past)
    ensures IsPast(p)
  {
    if done == [] then Past([], 0, []) else After(PastOf(done[..|done| - 1]), done[|done| - 1])
  }

  lemma OneMoreTurn(done: seq<Turn>, turn: Turn)
    ensures PastOf(done + [turn]) == After(PastOf(done), turn)
  {
    assert (done + [turn])[..|done|] == done;
  }

  // ---------------------------------------------------------------- the turn under way

  /** The clicks of the turn under way; `bonus` are the buttons it has added in a VS turn. */
  function TurnClicks(p: Past, bonus: seq<Click>, guessed: nat): seq<Click>
    requires IsPast(p) && (bonus == [] ==> p.begin <= guessed <= |p.buttons|)
  {
    if bonus == [] then p.buttons[p.begin..guessed] else p.buttons[p.begin..] + bonus
  }

  /** All clicks of a live game. */
  function Known(p: Past, bonus: seq<Click>, guessed: nat): seq<Click>
    requires IsPast(p) && (bonus == [] ==> p.begin <= guessed <= |p.buttons|)
  {
    p.clicks + TurnClicks(p, bonus, guessed)
  }

  /** The sequence and the position of a game in such a turn. */
  predicate InTurn(g: Game, p: Past, bonus: seq<Click>) {
    && IsPast(p)
    && g.buttons == p.buttons + bonus
    && (g.vsWasPressed <==> bonus != [])
    && (if bonus == [] then p.begin <= g.guessed <= |p.buttons|
        else bonus[0] == VS_B && g.guessed == if |bonus| == 1 then |p.buttons| else 0)
  }

  predicate IsClickOf(g: Game, click: Click, outcomes: set<Outcome>) {
    !g.gameEnd && click != NO_BUTTON && Classify(g, click) in outcomes
  }

  /** A click that ends a turn. */
  lemma ExtendsTurn(g: Game, p: Past, click: Click, drawn: bool)
    requires InTurn(g, p, []) && IsClickOf(g, click, {Extend})
    ensures var g', p' := ClickButton(g, click, drawn), After(p, Turn([click], false));
            InTurn(g', p', []) && Known(p', [], g'.guessed) == Known(p, [], g.guessed) + [click]
  {
    assert p.buttons[p.begin..|p.buttons|] == p.buttons[p.begin..];
  }

  /** A click in a VS turn, or the one that opens it. */
  lemma AddsBonus(g: Game, p: Past, bonus: seq<Click>, click: Click, drawn: bool)
    requires InTurn(g, p, bonus) && IsClickOf(g, click, {StartVs, Bonus})
    requires Timed(g)
    ensures var g' := ClickButton(g, click, drawn);
            && InTurn(g', p, bonus + [click])
            && Known(p, bonus + [click], g'.guessed) == Known(p, bonus, g.guessed) + [click]
  {
    var from := p.buttons[p.begin..];
    assert p.buttons + (bonus + [click]) == p.buttons + bonus + [click];
    assert p.clicks + (from + (bonus + [click])) == p.clicks + (from + bonus) + [click];
    assert bonus == [] ==> p.buttons[p.begin..|p.buttons|] == from == from + bonus;
  }

  lemma Repeats(g: Game, p: Past, click: Click, drawn: bool)
    requires InTurn(g, p, []) && IsClickOf(g, click, {Match})
    ensures var g' := ClickButton(g, click, drawn);
            InTurn(g', p, []) && Known(p, [], g'.guessed) == Known(p, [], g.guessed) + [click]
  {
    var b := p.buttons;
    assert b[p.begin..g.guessed + 1] == b[p.begin..g.guessed] + [b[g.guessed]];
  }

  /** A VS turn that runs out. */
  lemma TurnEnds(g: Game, p: Past, bonus: seq<Click>, drawn: bool)
    requires InTurn(g, p, bonus) && bonus != []
    ensures var g', p' := Pass(g, drawn), After(p, Turn(bonus, true));
            InTurn(g', p', []) && Known(p', [], g'.guessed) == Known(p, bonus, g.guessed)
  {
    var from := p.buttons[p.begin..];
    assert p.clicks + (from + bonus) == p.clicks + from + bonus;
  }

  // ---------------------------------------------------------------- games

  /** The finished turns of a game, and the buttons added so far in a VS turn that is under way. */
  datatype Course = Course(done: seq<Turn>, bonus: seq<Click>)

  const NO_TURNS := Course([], [])

  /** The course of a game after one more step. */
  function NextCourse(g: Game, c: Course, step: Step): Course {
    match step
    case Press(click, _) =>
      if g.gameEnd || click == NO_BUTTON then c
      else (match Classify(g, click)
            case StartVs => c.(bonus := c.bonus + [click])
            case Bonus => c.(bonus := c.bonus + [click])
            case Extend => Course(c.done + [Turn([click], false)], [])
            case _ => c)
    case Second(_, _) =>
      if g.vsWasPressed && g.timeLeft == 0 then Course(c.done + [Turn(c.bonus, true)], []) else c
  }

  function CourseOf(s: Session, c: Course, steps: seq<Step>): Course
    decreases |steps|
  {
    if steps == [] then c else CourseOf(Next(s, steps[0]), NextCourse(s.game, c, steps[0]), steps[1..])
  }

  /** The turns are turns, and say who plays. */
  predicate Alternate(g: Game, done: seq<Turn>) {
    && (forall i :: 0 <= i < |done| ==> IsTurn(done[i]))
    && (g.isPlayer1 <==> |done| % 2 == 0)
  }

  predicate OnCourse(g: Game, c: Course) {
    Alternate(g, c.done) && InTurn(g, PastOf(c.done), c.bonus)
  }

  /** The clicks of a live game with the given course. */
  function KnownTo(g: Game, c: Course): seq<Click>
    requires OnCourse(g, c)
  {
    Known(PastOf(c.done), c.bonus, g.guessed)
  }

  /** All its clicks, the one that ended it perhaps excepted. */
  predicate ClicksOnCourse(s: Session, c: Course)
    requires OnCourse(s.game, c)
  {
    var known, h := KnownTo(s.game, c), s.clicks;
    h == known || (s.game.gameEnd && h != [] && h[..|h| - 1] == known)
  }

  lemma TurnIsDone(g: Game, c: Course, turn: Turn, g': Game)
    requires OnCourse(g, c) && IsTurn(turn) && g'.isPlayer1 != g.isPlayer1
    requires InTurn(g', After(PastOf(c.done), turn), [])
    ensures var c' := Course(c.done + [turn], []);
            OnCourse(g', c') && PastOf(c'.done) == After(PastOf(c.done), turn)
  {
    var done := c.done + [turn];
    OneMoreTurn(c.done, turn);
    assert |done| == |c.done| + 1;
    forall i | 0 <= i < |done| ensures IsTurn(done[i]) {
      assert i < |c.done| ==> done[i] == c.done[i];
    }
  }

  lemma ExtendOnCourse(g: Game, c: Course, click: Click, drawn: bool)
    requires Timed(g) && OnCourse(g, c) && IsClickOf(g, click, {Extend})
    ensures var g', c' := ClickButton(g, click, drawn), Course(c.done + [Turn([click], false)], []);
            OnCourse(g', c') && KnownTo(g', c') == KnownTo(g, c) + [click]
  {
    ExtendsTurn(g, PastOf(c.done), click, drawn);
    TurnIsDone(g, c, Turn([click], false), ClickButton(g, click, drawn));
  }

  lemma StayOnCourse(g: Game, c: Course, click: Click, drawn: bool)
    requires Timed(g) && OnCourse(g, c) && IsClickOf(g, click, {StartVs, Bonus, Match})
    ensures var g', c' := ClickButton(g, click, drawn), NextCourse(g, c, Press(click, drawn));
            OnCourse(g', c') && KnownTo(g', c') == KnownTo(g, c) + [click]
  {
    if Classify(g, click) == Match {
      Repeats(g, PastOf(c.done), click, drawn);
    } else {
      AddsBonus(g, PastOf(c.done), c.bonus, click, drawn);
    }
  }

  lemma PressOnCourse(g: Game, c: Course, click: Click, drawn: bool)
    requires Timed(g) && OnCourse(g, c) && !g.gameEnd && click != NO_BUTTON
    ensures var g', c' := ClickButton(g, click, drawn), NextCourse(g, c, Press(click, drawn));
            OnCourse(g', c') && KnownTo(g', c') == if g'.gameEnd then KnownTo(g, c) else KnownTo(g, c) + [click]
  {
    if Classify(g, click) == Extend {
      ExtendOnCourse(g, c, click, drawn);
    } else if Classify(g, click) in {StartVs, Bonus, Match} {
      StayOnCourse(g, c, click, drawn);
    }
  }

  lemma PassOnCourse(g: Game, c: Course, drawn: bool)
    requires Timed(g) && OnCourse(g, c) && g.vsWasPressed
    ensures var g', c' := Pass(g, drawn), Course(c.done + [Turn(c.bonus, true)], []);
            OnCourse(g', c') && KnownTo(g', c') == KnownTo(g, c)
  {
    TurnEnds(g, PastOf(c.done), c.bonus, drawn);
    TurnIsDone(g, c, Turn(c.bonus, true), Pass(g, drawn));
  }

  lemma SecondOnCourse(g: Game, c: Course, drawn: bool, lowest: int)
    requires Timed(g) && OnCourse(g, c)
    ensures var g', c' := Tick(g, drawn, lowest), NextCourse(g, c, Second(drawn, lowest));
            OnCourse(g', c') && KnownTo(g', c') == KnownTo(g, c)
  {
    if g.vsWasPressed && g.timeLeft == 0 {
      PassOnCourse(g, c, drawn);
    }
  }

  lemma StepOnCourse(s: Session, c: Course, step: Step)
    requires Timed(s.game) && Settled(s.game) && OnCourse(s.game, c) && ClicksOnCourse(s, c)
    ensures OnCourse(Next(s, step).game, NextCourse(s.game, c, step))
    ensures ClicksOnCourse(Next(s, step), NextCourse(s.game, c, step))
  {
    match step
    case Second(drawn, lowest) =>
      StepTimed(s, step);
      SecondOnCourse(s.game, c, drawn, lowest);
    case Press(click, drawn) =>
      if !s.game.gameEnd && click != NO_BUTTON {
        PressOnCourse(s.game, c, click, drawn);
        assert (s.clicks + [click])[..|s.clicks|] == s.clicks;
        assert s.clicks + [] == s.clicks;
      }
  }

  lemma {:induction false} RunOnCourse(s: Session, c: Course, steps: seq<Step>)
    requires Timed(s.game) && Settled(s.game) && OnCourse(s.game, c) && ClicksOnCourse(s, c)
    ensures OnCourse(Run(s, steps).game, CourseOf(s, c, steps))
    ensures ClicksOnCourse(Run(s, steps), CourseOf(s, c, steps))
    decreases |steps|
  {
    if steps != [] {
      StepTimed(s, steps[0]);
      StepOnCourse(s, c, steps[0]);
      RunOnCourse(Next(s, steps[0]), NextCourse(s.game, c, steps[0]), steps[1..]);
    }
  }

  /** In any live game, VS turns included, the clicks are those of its finished turns and of the turn under way. */
  lemma AnyClickHistory(start: Session, rounds: nat, steps: seq<Step>)
    requires NewGame(start, rounds)
    ensures var s, c := Run(start, steps), CourseOf(start, NO_TURNS, steps);
            && OnCourse(s.game, c)
            && (!s.game.gameEnd ==> s.clicks == KnownTo(s.game, c))
  {
    RunOnCourse(start, NO_TURNS, steps);
  }

  /** Without VS turns this is the history of the sequence. */
  lemma {:induction false} PastWithoutVs(done: seq<Turn>)
    requires forall i :: 0 <= i < |done| ==> IsTurn(done[i]) && !done[i].vs
    ensures var p := PastOf(done); p.begin == 0 && p.clicks == Turns(p.buttons) && |p.buttons| == |done|
    decreases |done|
  {
    if done != [] {
      var most, last := done[..|done| - 1], done[|done| - 1];
      PastWithoutVs(most);
      var p, b := PastOf(most), PastOf(most).buttons + last.added;
      assert b[..|b| - 1] == p.buttons && p.buttons[0..] == p.buttons;
      assert Turns(b) == Turns(p.buttons) + b == Turns(p.buttons) + p.buttons + last.added;
    }
  }

  // ---------------------------------------------------------------- the first click that fits no turn

  /** A turn can begin with these clicks: it repeats, and then adds one button, or VS and any others. */
  predicate CanBegin(p: Past, vsRound: bool, clicks: seq<Click>)
    requires IsPast(p)
  {
    var repeated := p.buttons[p.begin..];
    clicks <= repeated ||
    (repeated < clicks && (|clicks| == |repeated| + 1 || (vsRound && clicks[|repeated|] == VS_B)))
  }

  lemma DeviationWhenRepeating(g: Game, p: Past, click: Click)
    requires InTurn(g, p, []) && g.guessed < |g.buttons|
    ensures var made := TurnClicks(p, [], g.guessed);
            && CanBegin(p, g.isVsRound, made)
            && (CanBegin(p, g.isVsRound, made + [click]) <==> click == g.buttons[g.guessed])
  {
    var made, repeated, k := TurnClicks(p, [], g.guessed), p.buttons[p.begin..], g.guessed - p.begin;
    assert made == repeated[..k] && (made + [click])[k] == click && repeated[k] == g.buttons[g.guessed];
    if click == g.buttons[g.guessed] {
      assert made + [click] == repeated[..k + 1];
    }
  }

  lemma NoDeviationWhenAdding(g: Game, p: Past, bonus: seq<Click>, click: Click)
    requires Timed(g) && InTurn(g, p, bonus) && (bonus == [] ==> g.guessed == |g.buttons|)
    ensures var made := TurnClicks(p, bonus, g.guessed);
            CanBegin(p, g.isVsRound, made) && CanBegin(p, g.isVsRound, made + [click])
  {
    var made, repeated := TurnClicks(p, bonus, g.guessed), p.buttons[p.begin..];
    assert made == repeated + bonus && (made + [click])[..|repeated|] == repeated;
    if bonus != [] {
      assert made[|repeated|] == VS_B == (made + [click])[|repeated|];
    }
  }

  lemma ClickLosesInTurn(g: Game, p: Past, bonus: seq<Click>, click: Click, next: bool)
    requires Timed(g) && InTurn(g, p, bonus) && !g.gameEnd && click != NO_BUTTON
    ensures var g' := ClickButton(g, click, next);
            g'.gameEnd && g'.ws != Tie
            <==> bonus == [] && g.guessed < |g.buttons| && click != g.buttons[g.guessed]
  {
  }

  /**
   In every game a click loses if and only if no turn that starts where this one does can begin
   with its clicks.
   */
  lemma LossIsFirstDeviationOfTurn(start: Session, rounds: nat, steps: seq<Step>, click: Click, next: bool)
    requires NewGame(start, rounds) && click != NO_BUTTON && !Run(start, steps).game.gameEnd
    ensures var s, p := Run(start, steps), PastOf(CourseOf(start, NO_TURNS, steps).done);
            && |p.clicks| <= |s.clicks|
            && var made, g := s.clicks[|p.clicks|..], Next(s, Press(click, next)).game;
               && CanBegin(p, s.game.isVsRound, made)
               && (g.gameEnd && g.ws != Tie <==> !CanBegin(p, s.game.isVsRound, made + [click]))
  {
    EveryGameIsTimed(start, rounds, steps);
    AnyClickHistory(start, rounds, steps);
    var s, c := Run(start, steps), CourseOf(start, NO_TURNS, steps);
    var p := PastOf(c.done);
    assert s.clicks[|p.clicks|..] == TurnClicks(p, c.bonus, s.game.guessed);
    ClickLosesInTurn(s.game, p, c.bonus, click, next);
    if c.bonus == [] && s.game.guessed < |s.game.buttons| {
      DeviationWhenRepeating(s.game, p, click);
    } else {
      NoDeviationWhenAdding(s.game, p, c.bonus, click);
    }
  }
}
