/**
 The guess-the-number mini-app: a hidden target drawn from 1...100, a slider
 the player sets, and a button that compares the slider's value with the
 target. A wrong guess counts one attempt and shows which way to go; the
 right one raises a "Победа" alert and starts a new round at once, and the
 alert's restart button starts yet another.

 `Int.random(in: 1...100)` becomes a `draw` argument of type `Number`; the
 slider (range 1...100, read through `Int(slider.value)`) becomes a
 `Number` field.
 */
module GuessNumber {
  import opened ModeTokens

  type Number = n: int | 1 <= n <= 100 witness 50

  /** The slider's starting and reset position. */
  const Midpoint: Number := 50

  /** "Загаданное число больше!" / "Загаданное число меньше!" */
  datatype Hint = TargetGreater | TargetSmaller

  /** `resultLabel.text`: empty, or one of the two hints. */
  datatype ResultText = NoResult | HintShown(hint: Hint)

  /** `attemptsCountLabel.text`: empty, or "Попыток: n". */
  datatype AttemptsText = NoAttempts | AttemptsShown(count: nat)

  datatype Game = Game(target: Number, slider: Number, attempts: nat, result: ResultText, attemptsText: AttemptsText)

  /** The state right after the view is created with first draw `draw`. */
  function Launch(draw: Number): (g: Game)
    ensures g.target == draw && g.slider == Midpoint && g.attempts == 0
    ensures g.result == NoResult && g.attemptsText == NoAttempts
  {
    Game(draw, Midpoint, 0, NoResult, NoAttempts)
  }

  /** The player drags the slider; nothing else moves. */
  function MoveSlider(g: Game, value: Number): (r: Game)
    ensures r.slider == value
    ensures r.target == g.target && r.attempts == g.attempts
    ensures r.result == g.result && r.attemptsText == g.attemptsText
  {
    Game(g.target, value, g.attempts, g.result, g.attemptsText)
  }

  /** `resetGame`: a new target, the slider back to the middle, both labels
      cleared and the attempt counter zeroed. */
  function ResetGame(g: Game, draw: Number): (r: Game)
    ensures r.target == draw
    ensures r.slider == Midpoint && r.attempts == 0
    ensures r.result == NoResult && r.attemptsText == NoAttempts
  {
    Game(draw, Midpoint, 0, NoResult, NoAttempts)
  }

  /** What a press of the guess button reports. */
  datatype Outcome = Wrong(hint: Hint) | Victory

  datatype Check = Check(game: Game, outcome: Outcome)

  /** `checkGuess`; `draw` is consumed only when the guess is right. The
      label animation is taken to have finished. */
  function CheckGuess(g: Game, draw: Number): (r: Check)
    ensures g.slider < g.target ==>
      && r.outcome == Wrong(TargetGreater)
      && r.game.attempts == g.attempts + 1
      && r.game.target == g.target && r.game.slider == g.slider
      && r.game.result == HintShown(TargetGreater)
      && r.game.attemptsText == AttemptsShown(r.game.attempts)
    ensures g.slider > g.target ==>
      && r.outcome == Wrong(TargetSmaller)
      && r.game.attempts == g.attempts + 1
      && r.game.target == g.target && r.game.slider == g.slider
      && r.game.result == HintShown(TargetSmaller)
      && r.game.attemptsText == AttemptsShown(r.game.attempts)
    ensures g.slider == g.target ==>
      && r.outcome == Victory
      && r.game == ResetGame(g, draw)
  {
    if g.slider < g.target then
      Check(Game(g.target, g.slider, g.attempts + 1, HintShown(TargetGreater), AttemptsShown(g.attempts + 1)),
            Wrong(TargetGreater))
    else if g.slider > g.target then
      Check(Game(g.target, g.slider, g.attempts + 1, HintShown(TargetSmaller), AttemptsShown(g.attempts + 1)),
            Wrong(TargetSmaller))
    else
      Check(ResetGame(g, draw), Victory)
  }

  /** The hint points from the guess towards the target. */
  lemma HintPointsToTarget(g: Game, draw: Number)
    ensures CheckGuess(g, draw).outcome == Wrong(TargetGreater) <==> g.slider < g.target
    ensures CheckGuess(g, draw).outcome == Wrong(TargetSmaller) <==> g.slider > g.target
    ensures CheckGuess(g, draw).outcome == Victory <==> g.slider == g.target
  {
  }

  /** A winning guess leaves a fresh round whatever the counter was: the
      winning press itself is not counted. */
  lemma VictoryStartsFreshRound(g: Game, draw: Number)
    requires g.slider == g.target
    ensures CheckGuess(g, draw).game.attempts == 0
    ensures CheckGuess(g, draw).game.slider == Midpoint
    ensures CheckGuess(g, draw).game.target == draw
  {
  }

  /** The alert's restart handler runs `resetGame` a second time: only the
      target differs from what the first reset left. */
  lemma ResetTwice(g: Game, first: Number, second: Number)
    ensures ResetGame(ResetGame(g, first), second) == ResetGame(g, second)
    ensures var once := ResetGame(g, first);
            var twice := ResetGame(once, second);
            twice.slider == once.slider && twice.attempts == once.attempts &&
            twice.result == once.result && twice.attemptsText == once.attemptsText
  {
  }

  // ---------------------------------------------------------------------------
  // Rounds
  // ---------------------------------------------------------------------------

  /** A user action: drag the slider, press the button, or press the alert's
      restart button. `draw` is the value `Int.random(in: 1...100)` would yield. */
  datatype Action = Slide(value: Number) | Guess(draw: Number) | Restart(draw: Number)

  function Step(g: Game, a: Action): Game {
    match a
    case Slide(v) => MoveSlider(g, v)
    case Guess(d) => CheckGuess(g, d).game
    case Restart(d) => ResetGame(g, d)
  }

  function Run(g: Game, actions: seq<Action>): Game
    decreases |actions|
  {
    if |actions| == 0 then g else Run(Step(g, actions[0]), actions[1..])
  }

  /** The number of button presses in `actions`. */
  function Presses(actions: seq<Action>): nat
  {
    if |actions| == 0 then 0
    else (if actions[0].Guess? then 1 else 0) + Presses(actions[1..])
  }

  /** True iff no action of `actions` can start a new round when played from
      `g`: no restart, and every press is a miss. */
  predicate NoNewRound(g: Game, actions: seq<Action>)
    decreases |actions|
  {
    |actions| == 0 ||
    (!actions[0].Restart? &&
     (actions[0].Guess? ==> g.slider != g.target) &&
     NoNewRound(Step(g, actions[0]), actions[1..]))
  }

  /** Within one round the target stays put and the counter is exactly the
      number of wrong guesses submitted. */
  lemma {:induction false} RoundCountsMisses(g: Game, actions: seq<Action>)
    requires NoNewRound(g, actions)
    ensures Run(g, actions).target == g.target
    ensures Run(g, actions).attempts == g.attempts + Presses(actions)
    decreases |actions|
  {
    if |actions| > 0 {
      RoundCountsMisses(Step(g, actions[0]), actions[1..]);
    }
  }

  /** The counter never goes down except by starting a new round. */
  lemma {:induction false} AttemptsNeverDecreaseInRound(g: Game, actions: seq<Action>)
    requires NoNewRound(g, actions)
    ensures Run(g, actions).attempts >= g.attempts
  {
    RoundCountsMisses(g, actions);
  }

  /** Every step keeps the target inside the round's range, and a step that
      changes it is a reset. */
  lemma StepChangesTargetOnlyByReset(g: Game, a: Action)
    ensures 1 <= Step(g, a).target <= 100
    ensures Step(g, a).target != g.target ==>
      a.Restart? || (a.Guess? && g.slider == g.target)
  {
  }

  /** Target 42: guessing 10, then 42. */
  lemma GuessFortyTwo(g: Game, draw: Number)
    requires g.target == 42 && g.attempts == 0
    ensures var first := CheckGuess(MoveSlider(g, 10), draw);
            first.outcome == Wrong(TargetGreater) && first.game.attempts == 1
    ensures var first := CheckGuess(MoveSlider(g, 10), draw);
            var second := CheckGuess(MoveSlider(first.game, 42), draw);
            second.outcome == Victory && second.game.attempts == 0 && second.game.target == draw
  {
  }

  // ---------------------------------------------------------------------------
  // Display mode
  // ---------------------------------------------------------------------------

  /** Hidden flags of the widget's views; `attemptsCountLabel` is listed
      because the switch never writes it. */
  datatype Visibility = Visibility(
    titleHidden: bool, iconHidden: bool, hintHidden: bool, sliderHidden: bool,
    buttonHidden: bool, resultHidden: bool, attemptsHidden: bool)

  const InitialVisibility: Visibility := Visibility(false, false, false, false, false, false, false)

  function UpdateDisplayMode(v: Visibility, token: string): (r: Visibility)
    ensures r.attemptsHidden == v.attemptsHidden
    ensures r.titleHidden == r.iconHidden == IsExpanded(token)
    ensures r.hintHidden == r.sliderHidden == r.buttonHidden == r.resultHidden == !IsExpanded(token)
  {
    match token
    case "oneEighth" => Visibility(false, false, true, true, true, true, v.attemptsHidden)
    case "half" | "fullScreen" => Visibility(true, true, false, false, false, false, v.attemptsHidden)
    case _ => Visibility(false, false, true, true, true, true, v.attemptsHidden)
  }

  lemma UnknownTokenAsOneEighth(v: Visibility, token: string)
    requires !IsKnown(token)
    ensures UpdateDisplayMode(v, token) == UpdateDisplayMode(v, OneEighth)
  {
  }

  lemma HalfAsFullScreen(v: Visibility)
    ensures UpdateDisplayMode(v, Half) == UpdateDisplayMode(v, FullScreen)
  {
  }

  lemma DisplayIdempotent(v: Visibility, token: string)
    ensures UpdateDisplayMode(UpdateDisplayMode(v, token), token) == UpdateDisplayMode(v, token)
  {
  }

  /** The widget as the host holds it. */
  datatype App = App(game: Game, view: Visibility)

  function InitialApp(draw: Number): App {
    App(Launch(draw), InitialVisibility)
  }
}
