/**
 The host screen (`MainViewController`): a table with one row per entry of a
 fixed roster of ten mini-app views, a stored display mode, and the cell
 configuration that hosts a roster entry in its row, sends it the mode's
 string token and switches its user interaction on or off.

 Row heights (`availableHeight(for:)` and the modes' raw fractions) are
 window geometry and are not part of this model.
 */
module Host {
  import ModeTokens
  import TicTacToe
  import GuessNumber
  import Calculator
  import Weather

  datatype DisplayMode = OneEighth | Half | FullScreen

  /** The switch in `cellForRowAt` that turns the mode into a token. */
  function Token(m: DisplayMode): (t: string)
    ensures ModeTokens.IsKnown(t)
    ensures m == OneEighth <==> t == ModeTokens.OneEighth
    ensures m == Half <==> t == ModeTokens.Half
    ensures m == FullScreen <==> t == ModeTokens.FullScreen
  {
    match m
    case OneEighth => "oneEighth"
    case Half => "half"
    case FullScreen => "fullScreen"
  }

  /** Distinct modes send distinct tokens. */
  lemma TokenInjective(m1: DisplayMode, m2: DisplayMode)
    ensures Token(m1) == Token(m2) ==> m1 == m2
  {
  }

  /** Every roster entry conforms to `DisplayModeUpdatable`, so the
      `as?` cast always succeeds; the four variants replace it. */
  datatype MiniApp =
    | WeatherApp(weather: Weather.Visibility)
    | TicTacToeApp(ticTacToe: TicTacToe.App)
    | CalculatorApp(calculator: Calculator.App)
    | GuessNumberApp(guessNumber: GuessNumber.App)

  predicate SameKind(a: MiniApp, b: MiniApp) {
    && (a.WeatherApp? <==> b.WeatherApp?)
    && (a.TicTacToeApp? <==> b.TicTacToeApp?)
    && (a.CalculatorApp? <==> b.CalculatorApp?)
    && (a.GuessNumberApp? <==> b.GuessNumberApp?)
  }

  /** The call `updateDisplayMode(to: token)` on whichever widget `a` is:
      its layout (hidden flags, and the weather stack's axis) moves, never its
      game or calculator state. */
  function SendToken(a: MiniApp, token: string): (r: MiniApp)
    ensures SameKind(a, r)
    ensures a.TicTacToeApp? ==> r.ticTacToe.game == a.ticTacToe.game
    ensures a.CalculatorApp? ==> r.calculator.state == a.calculator.state
    ensures a.GuessNumberApp? ==> r.guessNumber.game == a.guessNumber.game
    // and each widget's view becomes what its own `updateDisplayMode(to:)` makes of it
    ensures a.WeatherApp? ==> r.weather == Weather.UpdateDisplayMode(a.weather, token)
    ensures a.TicTacToeApp? ==> r.ticTacToe.view == TicTacToe.UpdateDisplayMode(a.ticTacToe.view, token)
    ensures a.CalculatorApp? ==> r.calculator.view == Calculator.UpdateDisplayMode(a.calculator.view, token)
    ensures a.GuessNumberApp? ==> r.guessNumber.view == GuessNumber.UpdateDisplayMode(a.guessNumber.view, token)
  {
    match a
    case WeatherApp(v) => WeatherApp(Weather.UpdateDisplayMode(v, token))
    case TicTacToeApp(t) => TicTacToeApp(TicTacToe.App(t.game, TicTacToe.UpdateDisplayMode(t.view, token)))
    case CalculatorApp(c) => CalculatorApp(Calculator.App(c.state, Calculator.UpdateDisplayMode(c.view, token)))
    case GuessNumberApp(g) => GuessNumberApp(GuessNumber.App(g.game, GuessNumber.UpdateDisplayMode(g.view, token)))
  }

  /** A roster entry and its `isUserInteractionEnabled` flag. */
  datatype Slot = Slot(app: MiniApp, interactionEnabled: bool)

  datatype Controller = Controller(mode: DisplayMode, miniApps: seq<Slot>)

  /** Roster position `i` holds Weather, TicTacToe, Calculator, GuessNumber
      in turn, starting over every four entries. */
  predicate RosterKind(a: MiniApp, i: nat) {
    match i % 4
    case 0 => a.WeatherApp?
    case 1 => a.TicTacToeApp?
    case 2 => a.CalculatorApp?
    case _ => a.GuessNumberApp?
  }

  /** A widget as its view controller creates it: initial flags and, for
      the games and the calculator, the initial state. A guess-the-number
      widget's first target may be any draw. */
  predicate Fresh(a: MiniApp) {
    match a
    case WeatherApp(v) => v == Weather.InitialVisibility
    case TicTacToeApp(t) => t == TicTacToe.InitialApp
    case CalculatorApp(k) => k == Calculator.InitialApp
    case GuessNumberApp(g) => g == GuessNumber.InitialApp(g.game.target)
  }

  const NewWeather: Slot := Slot(WeatherApp(Weather.InitialVisibility), true)
  const NewTicTacToe: Slot := Slot(TicTacToeApp(TicTacToe.InitialApp), true)
  const NewCalculator: Slot := Slot(CalculatorApp(Calculator.InitialApp), true)

  /** A new guess-the-number widget whose first target is `draw`. */
  function NewGuessNumber(draw: GuessNumber.Number): Slot {
    Slot(GuessNumberApp(GuessNumber.InitialApp(draw)), true)
  }

  /** The controller as created: compact mode and the ten-entry roster,
      every view interactive (a `UIView`'s default). The two guess-the-number
      entries (positions 3 and 7) start with targets `first` and `second`. */
  function Launch(first: GuessNumber.Number, second: GuessNumber.Number): (c: Controller)
    ensures c.mode == OneEighth
    ensures |c.miniApps| == 10
    ensures forall i :: 0 <= i < |c.miniApps| ==> RosterKind(c.miniApps[i].app, i) && c.miniApps[i].interactionEnabled
    ensures forall i :: 0 <= i < |c.miniApps| ==> Fresh(c.miniApps[i].app)
    ensures c.miniApps[3].app.GuessNumberApp? && c.miniApps[3].app.guessNumber.game.target == first
    ensures c.miniApps[7].app.GuessNumberApp? && c.miniApps[7].app.guessNumber.game.target == second
  {
    Controller(OneEighth, [
      NewWeather, NewTicTacToe, NewCalculator, NewGuessNumber(first),
      NewWeather, NewTicTacToe, NewCalculator, NewGuessNumber(second),
      NewWeather, NewTicTacToe
    ])
  }

  /** Every tic-tac-toe game on the launched roster starts balanced, so
      whatever it is then played through stays balanced. */
  lemma LaunchedGamesBalanced(first: GuessNumber.Number, second: GuessNumber.Number, i: nat, actions: seq<TicTacToe.Action>)
    requires i < |Launch(first, second).miniApps| && Launch(first, second).miniApps[i].app.TicTacToeApp?
    ensures TicTacToe.Balanced(TicTacToe.Play(Launch(first, second).miniApps[i].app.ticTacToe.game, actions))
  {
    var c := Launch(first, second);
    assert Fresh(c.miniApps[i].app);
    TicTacToe.ReachableBalanced(actions);
  }

  /** `numberOfRowsInSection` */
  function NumberOfRows(c: Controller): nat {
    |c.miniApps|
  }

  lemma LaunchHasTenRows(first: GuessNumber.Number, second: GuessNumber.Number)
    ensures NumberOfRows(Launch(first, second)) == 10
  {
  }

  /** `updateDisplayMode(_:)`: store the mode; the widgets hear of it only
      when their rows are configured again. */
  function SetDisplayMode(c: Controller, m: DisplayMode): (r: Controller)
    ensures r.mode == m
    ensures r.miniApps == c.miniApps
  {
    Controller(m, c.miniApps)
  }

  /** A table cell's content view, as the roster positions of its subviews. */
  datatype Cell = Cell(subviews: seq<nat>)

  datatype Configured = Configured(controller: Controller, cell: Cell)

  /** The slot a row holds once configured under mode `m`. */
  function Hosted(s: Slot, m: DisplayMode): Slot {
    Slot(SendToken(s.app, Token(m)), m != OneEighth)
  }

  /** `cellForRowAt`: empty the reused cell, host roster entry `row` in it,
      send it the mode's token and set its interaction flag. Whatever the
      reused cell held is removed, so it does not appear in the result. */
  function ConfigureCell(c: Controller, reused: Cell, row: nat): (r: Configured)
    requires row < NumberOfRows(c)
    ensures r.cell.subviews == [row]
    ensures r.controller.mode == c.mode
    ensures |r.controller.miniApps| == |c.miniApps|
    ensures forall j :: 0 <= j < |c.miniApps| && j != row ==> r.controller.miniApps[j] == c.miniApps[j]
    ensures r.controller.miniApps[row].interactionEnabled <==> c.mode != OneEighth
    ensures SameKind(r.controller.miniApps[row].app, c.miniApps[row].app)
    ensures r.controller.miniApps[row] == Hosted(c.miniApps[row], c.mode)
  {
    Configured(Controller(c.mode, c.miniApps[row := Hosted(c.miniApps[row], c.mode)]), Cell([row]))
  }

  /** The cell handed out for reuse makes no difference: its old subviews
      are removed before the entry is added. */
  lemma ReusedCellForgotten(c: Controller, first: Cell, second: Cell, row: nat)
    requires row < NumberOfRows(c)
    ensures ConfigureCell(c, first, row) == ConfigureCell(c, second, row)
  {
  }

  /** Configuring the same row twice under one mode changes nothing more. */
  lemma ConfigureIdempotent(c: Controller, first: Cell, second: Cell, row: nat)
    requires row < NumberOfRows(c)
    ensures ConfigureCell(ConfigureCell(c, first, row).controller, second, row) == ConfigureCell(c, first, row)
  {
    var s := c.miniApps[row];
    var once := Hosted(s, c.mode);
    match s.app {
      case WeatherApp(v) => Weather.DisplayIdempotent(v, Token(c.mode));
      case TicTacToeApp(t) => TicTacToe.DisplayIdempotent(t.view, Token(c.mode));
      case CalculatorApp(k) => Calculator.DisplayIdempotent(k.view, Token(c.mode));
      case GuessNumberApp(g) => GuessNumber.DisplayIdempotent(g.view, Token(c.mode));
    }
    assert Hosted(once, c.mode) == once;
    assert ConfigureCell(c, first, row).controller.miniApps[row := once] == ConfigureCell(c, first, row).controller.miniApps;
  }

  /** `reloadData`, taken as configuring every row in order; `reused` is
      the cell the table hands out for each row. */
  method ReloadData(c: Controller, reused: seq<Cell>) returns (r: Controller, cells: seq<Cell>)
    requires |reused| == NumberOfRows(c)
    ensures r.mode == c.mode
    ensures |r.miniApps| == |c.miniApps| && |cells| == |c.miniApps|
    ensures forall i :: 0 <= i < |cells| ==> cells[i].subviews == [i]
    ensures forall i :: 0 <= i < |r.miniApps| ==> r.miniApps[i] == Hosted(c.miniApps[i], c.mode)
  {
    r := c;
    cells := [];
    var row := 0;
    while row < |c.miniApps|
      invariant 0 <= row <= |c.miniApps|
      invariant r.mode == c.mode && |r.miniApps| == |c.miniApps| && |cells| == row
      invariant forall i :: 0 <= i < row ==> cells[i].subviews == [i]
      invariant forall i :: 0 <= i < row ==> r.miniApps[i] == Hosted(c.miniApps[i], c.mode)
      invariant forall i :: row <= i < |r.miniApps| ==> r.miniApps[i] == c.miniApps[i]
    {
      var configured := ConfigureCell(r, reused[row], row);
      r := configured.controller;
      cells := cells + [configured.cell];
      row := row + 1;
    }
  }

  /** A menu item: `updateDisplayMode(_:)` stores the chosen mode, then
      reloads the table, which configures every row under the new mode. */
  method SelectMode(c: Controller, m: DisplayMode, reused: seq<Cell>) returns (r: Controller, cells: seq<Cell>)
    requires |reused| == NumberOfRows(c)
    ensures r.mode == m
    ensures |r.miniApps| == |c.miniApps| && |cells| == |c.miniApps|
    ensures forall i :: 0 <= i < |cells| ==> cells[i].subviews == [i]
    ensures forall i :: 0 <= i < |r.miniApps| ==> r.miniApps[i] == Hosted(c.miniApps[i], m)
  {
    var stored := SetDisplayMode(c, m);
    r, cells := ReloadData(stored, reused);
  }

  /** Only the last mode chosen matters: hosting under `m1` and then `m2`
      is hosting under `m2`, since every known token rewrites the whole
      layout of every widget. */
  lemma LastModeWins(s: Slot, m1: DisplayMode, m2: DisplayMode)
    ensures Hosted(Hosted(s, m1), m2) == Hosted(s, m2)
  {
  }

  /** After a reload every hosted widget shows the layout of the stored
      mode, accepts input iff the mode is not compact, and keeps its kind. */
  lemma HostedFollowsMode(s: Slot, m: DisplayMode)
    ensures Hosted(s, m).interactionEnabled <==> m != OneEighth
    ensures SameKind(Hosted(s, m).app, s.app)
    ensures s.app.WeatherApp? ==> Hosted(s, m).app.weather.axis == (if m == OneEighth then Weather.Horizontal else Weather.Vertical)
    ensures s.app.TicTacToeApp? ==> Hosted(s, m).app.ticTacToe.view.cellsHidden == (m == OneEighth)
    ensures s.app.CalculatorApp? ==> Hosted(s, m).app.calculator.view.buttonsHidden == (m == OneEighth)
    ensures s.app.GuessNumberApp? ==> Hosted(s, m).app.guessNumber.view.sliderHidden == (m == OneEighth)
  {
  }

  /** Because the host only sends known tokens, a widget's `default:`
      branch never runs: the calculator's keypad flag, which that branch
      would leave alone, is always set from the mode. */
  lemma HostNeverReachesDefault(v: Calculator.Visibility, w: Calculator.Visibility, m: DisplayMode)
    ensures Calculator.UpdateDisplayMode(v, Token(m)) == Calculator.UpdateDisplayMode(w, Token(m))
  {
  }
}
