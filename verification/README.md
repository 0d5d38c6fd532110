# MiniApps core in Dafny

A model of the logic inside the MiniApps iOS host. The host screen lists a
fixed roster of ten widgets: weather, tic-tac-toe, calculator and
guess-the-number, repeated. A menu switches every widget between three
densities (one eighth of the screen, half, full). The model covers:

- **Tic-tac-toe** (`TicTacToe`, `tic_tac_toe.dfy`). It has a nine-cell
  board, the side to move, the fixed first side (crosses) and two scores.
  A tap on a cell is accepted or rejected. After every tap the app checks
  for a crosses line, then a noughts line, then a full board, and raises
  one alert per check that succeeds. The alert's restart button resets the
  board.
- **Guess the number** (`GuessNumber`, `guess_number.dfy`). It has a hidden
  target in 1...100, a slider, an attempt counter and two labels. A wrong
  guess counts one attempt and shows a hint. A right guess raises the
  victory alert and resets the round at once. The alert's restart button
  resets it again.
- **Calculator** (`Calculator`, `calculator.dfy`). Its state is the strings
  `currentNumber`, `previousNumber` and `operation` plus the displayed text.
  Digit and dot input, operator staging, the `=` guard and the clear key
  are modelled. So is the keypad switch, including its lexicographic
  `"0"..."9"` string range.
- **Weather** (`Weather`, `weather.dfy`). Only its display-mode reaction
  and initial flags are modelled.
- **Host** (`Host`, `host.dfy`). It holds the display mode and the roster.
  The model covers the mode-to-token switch, cell configuration (host the
  entry, broadcast the token, set the interaction flag) and a full reload.
- **Display tokens** (`ModeTokens`, `mode_tokens.dfy`). These are the three
  string tokens every widget's `updateDisplayMode(to:)` switches on.

The operations are pure functions over immutable datatypes, except the host's table reload and menu action, which are methods with a loop. The random
draw, the slider position and the floating-point arithmetic of `=` are
parameters:

- A random draw is a `draw` argument of type `Number` (1...100).
- The slider is a `Number` field.
- The arithmetic of `=` is an `Evaluator`: a function from the two operand
  strings and the operator to a non-empty printed result.

Behaviours of the code worth knowing before reading the contracts:

- An unknown token does not always give the compact layout. The
  calculator's `default:` branch shows the result label and keeps the
  keypad as it was (`Calculator.UnknownTokenDiffersFromOneEighth`). The
  weather widget's `default:` branch shows both labels and keeps the axis.
- The three checks after a tap are independent, so one tap can request a win
  alert and a draw alert. A rejected tap also re-runs the checks
  (`TicTacToe.RejectedTapRescores`).
- `updateDisplayMode(_:)` on the host only stores the mode and reloads the
  table. The broadcast to the widgets happens per row in `cellForRowAt`.

## Model

| member | source | states |
|---|---|---|
| TicTacToe.AnyLineOwned | TicTacToeMiniAppPackage/Sources/TicTacToeMiniAppPackage/TicTacToeMiniAppPackage.swift:196-202 | the pattern loop answers true iff some pattern in the list is entirely the symbol |
| TicTacToe.CheckVictory | TicTacToeMiniAppPackage/Sources/TicTacToeMiniAppPackage/TicTacToeMiniAppPackage.swift:184-203 | a symbol has won iff one of the eight victory patterns is entirely that symbol |
| TicTacToe.CheckVictoryTriples | TicTacToeMiniAppPackage/Sources/TicTacToeMiniAppPackage/TicTacToeMiniAppPackage.swift:185-194 | the win check is equivalent to the disjunction over the triples {0,1,2},{3,4,5},{6,7,8},{0,3,6},{1,4,7},{2,5,8},{0,4,8},{2,4,6} |
| TicTacToe.AllMarked | TicTacToeMiniAppPackage/Sources/TicTacToeMiniAppPackage/TicTacToeMiniAppPackage.swift:206 | `allSatisfy` over cells is true iff every cell carries a mark |
| TicTacToe.FullBoard | TicTacToeMiniAppPackage/Sources/TicTacToeMiniAppPackage/TicTacToeMiniAppPackage.swift:205-207 | the board is full iff none of the nine cells is empty |
| TicTacToe.AddToBoard | TicTacToeMiniAppPackage/Sources/TicTacToeMiniAppPackage/TicTacToeMiniAppPackage.swift:170-182 | a tap on a marked cell changes nothing; a tap on an empty cell writes the mover's symbol there, keeps the other eight cells and flips the turn; scores are untouched |
| TicTacToe.TapAlerts | TicTacToeMiniAppPackage/Sources/TicTacToeMiniAppPackage/TicTacToeMiniAppPackage.swift:155-167 | one alert per successful check and no other, in the order crosses, noughts, draw; the crosses alert's message carries the noughts score from before the tap, the noughts and draw alerts carry both final scores |
| TicTacToe.Tap | TicTacToeMiniAppPackage/Sources/TicTacToeMiniAppPackage/TicTacToeMiniAppPackage.swift:152-168 | after any tap, accepted or not, each score grows by exactly one iff that side owns a line, a win alert is raised iff that side owns a line, and the draw alert is raised iff the board is full, independently of any win; the last alert shows the final scores |
| TicTacToe.CrossesAlertShowsOldNoughts | TicTacToeMiniAppPackage/Sources/TicTacToeMiniAppPackage/TicTacToeMiniAppPackage.swift:155-161 | when crosses own a line the first alert is the crosses alert, and its message shows the noughts score from before the tap |
| TicTacToe.ResetBoard | TicTacToeMiniAppPackage/Sources/TicTacToeMiniAppPackage/TicTacToeMiniAppPackage.swift:209-215 | restart empties all nine cells, gives the turn to crosses and keeps both scores |
| TicTacToe.CountAfterMark | TicTacToeMiniAppPackage/Sources/TicTacToeMiniAppPackage/TicTacToeMiniAppPackage.swift:171-180 | writing a symbol into an empty cell raises that symbol's count by one and leaves the other's unchanged |
| TicTacToe.InitialBalanced | TicTacToeMiniAppPackage/Sources/TicTacToeMiniAppPackage/TicTacToeMiniAppPackage.swift:45-46 | the launch state (empty board, crosses to move) satisfies the turn invariant |
| TicTacToe.TapKeepsBalanced | TicTacToeMiniAppPackage/Sources/TicTacToeMiniAppPackage/TicTacToeMiniAppPackage.swift:170-181 | a tap preserves #X - #O in {0,1} together with "crosses to move iff #X == #O" |
| TicTacToe.ResetBalanced | TicTacToeMiniAppPackage/Sources/TicTacToeMiniAppPackage/TicTacToeMiniAppPackage.swift:209-215 | a restart re-establishes the turn invariant from any state |
| TicTacToe.PlayKeepsBalanced | TicTacToeMiniAppPackage/Sources/TicTacToeMiniAppPackage/TicTacToeMiniAppPackage.swift:152-215 | any sequence of taps and restarts preserves the turn invariant |
| TicTacToe.ReachableBalanced | TicTacToeMiniAppPackage/Sources/TicTacToeMiniAppPackage/TicTacToeMiniAppPackage.swift:45-46 | every state reachable from launch has #X - #O in {0,1} and crosses to move iff the counts are level |
| TicTacToe.PlayScoresMonotone | TicTacToeMiniAppPackage/Sources/TicTacToeMiniAppPackage/TicTacToeMiniAppPackage.swift:155-163 | no sequence of taps and restarts ever lowers either score |
| TicTacToe.RejectedTapRescores | TicTacToeMiniAppPackage/Sources/TicTacToeMiniAppPackage/TicTacToeMiniAppPackage.swift:152-158 | a rejected tap on a board where crosses already own a line leaves the board alone but scores crosses again |
| TicTacToe.CrossesCompleteTopRow | TicTacToeMiniAppPackage/Sources/TicTacToeMiniAppPackage/TicTacToeMiniAppPackage.swift:152-167 | on X X _ / O O _ / _ _ _ a crosses tap on cell 2 adds one to crosses only and raises exactly the crosses alert |
| TicTacToe.UpdateDisplayMode | TicTacToeMiniAppPackage/Sources/TicTacToeMiniAppPackage/TicTacToeMiniAppPackage.swift:232-251 | board cells and turn label are visible iff the token is "half" or "fullScreen"; title and icon are visible exactly when the cells are not |
| TicTacToe.UnknownTokenAsOneEighth | TicTacToeMiniAppPackage/Sources/TicTacToeMiniAppPackage/TicTacToeMiniAppPackage.swift:245-249 | an unknown token gives the same layout as "oneEighth" |
| TicTacToe.HalfAsFullScreen | TicTacToeMiniAppPackage/Sources/TicTacToeMiniAppPackage/TicTacToeMiniAppPackage.swift:240-244 | "half" and "fullScreen" give the same layout |
| TicTacToe.DisplayForgetsPrior | TicTacToeMiniAppPackage/Sources/TicTacToeMiniAppPackage/TicTacToeMiniAppPackage.swift:233-250 | the layout after a token does not depend on the layout before |
| TicTacToe.DisplayIdempotent | TicTacToeMiniAppPackage/Sources/TicTacToeMiniAppPackage/TicTacToeMiniAppPackage.swift:232-251 | sending the same token twice gives the same layout as sending it once |
| GuessNumber.Launch | Packages/GuessNumberMiniAppPackage/Sources/GuessNumberMiniAppPackage/GuessNumberMiniAppPackage.swift:5-96 | a new widget has the drawn target, the slider at 50, no attempts and both labels empty |
| GuessNumber.MoveSlider | Packages/GuessNumberMiniAppPackage/Sources/GuessNumberMiniAppPackage/GuessNumberMiniAppPackage.swift:42-49 | moving the slider changes only the slider value, which stays within 1...100 |
| GuessNumber.ResetGame | Packages/GuessNumberMiniAppPackage/Sources/GuessNumberMiniAppPackage/GuessNumberMiniAppPackage.swift:162-168 | reset installs the new draw as target, puts the slider at 50, zeroes the attempts and empties both labels |
| GuessNumber.CheckGuess | Packages/GuessNumberMiniAppPackage/Sources/GuessNumberMiniAppPackage/GuessNumberMiniAppPackage.swift:132-145 | a low guess counts one attempt, shows "greater" and keeps the target; a high guess counts one attempt, shows "smaller" and keeps the target; a right guess raises victory without counting and resets the round |
| GuessNumber.HintPointsToTarget | Packages/GuessNumberMiniAppPackage/Sources/GuessNumberMiniAppPackage/GuessNumberMiniAppPackage.swift:135-143 | the outcome is "greater" iff guess < target, "smaller" iff guess > target, and victory iff they are equal |
| GuessNumber.VictoryStartsFreshRound | Packages/GuessNumberMiniAppPackage/Sources/GuessNumberMiniAppPackage/GuessNumberMiniAppPackage.swift:141-143 | after a right guess the attempts are 0, the slider 50 and the target the new draw, whatever the counter was |
| GuessNumber.ResetTwice | Packages/GuessNumberMiniAppPackage/Sources/GuessNumberMiniAppPackage/GuessNumberMiniAppPackage.swift:172-177 | the alert handler's second reset agrees with the first on every field except the redrawn target |
| GuessNumber.RoundCountsMisses | Packages/GuessNumberMiniAppPackage/Sources/GuessNumberMiniAppPackage/GuessNumberMiniAppPackage.swift:135-140 | within a round the target stays fixed and the attempt counter grows by exactly the number of guesses submitted |
| GuessNumber.AttemptsNeverDecreaseInRound | Packages/GuessNumberMiniAppPackage/Sources/GuessNumberMiniAppPackage/GuessNumberMiniAppPackage.swift:135-140 | within a round the attempt counter never decreases |
| GuessNumber.StepChangesTargetOnlyByReset | Packages/GuessNumberMiniAppPackage/Sources/GuessNumberMiniAppPackage/GuessNumberMiniAppPackage.swift:162-163 | the target stays in 1...100, and a step changes it only if the step is a restart or a winning guess |
| GuessNumber.GuessFortyTwo | Packages/GuessNumberMiniAppPackage/Sources/GuessNumberMiniAppPackage/GuessNumberMiniAppPackage.swift:132-145 | with target 42, guessing 10 gives "greater" with one attempt, then guessing 42 wins and leaves zero attempts and a fresh target |
| GuessNumber.UpdateDisplayMode | Packages/GuessNumberMiniAppPackage/Sources/GuessNumberMiniAppPackage/GuessNumberMiniAppPackage.swift:185-209 | hint, slider, button and result label are visible iff the token is "half" or "fullScreen", title and icon exactly when they are not, and the attempts label is never touched |
| GuessNumber.UnknownTokenAsOneEighth | Packages/GuessNumberMiniAppPackage/Sources/GuessNumberMiniAppPackage/GuessNumberMiniAppPackage.swift:201-208 | an unknown token gives the same layout as "oneEighth" |
| GuessNumber.HalfAsFullScreen | Packages/GuessNumberMiniAppPackage/Sources/GuessNumberMiniAppPackage/GuessNumberMiniAppPackage.swift:194-200 | "half" and "fullScreen" give the same layout |
| GuessNumber.DisplayIdempotent | Packages/GuessNumberMiniAppPackage/Sources/GuessNumberMiniAppPackage/GuessNumberMiniAppPackage.swift:185-209 | sending the same token twice gives the same layout as sending it once |
| Calculator.NumberInput | CalculatorMiniAppPackage/Sources/CalculatorMiniAppPackage/CalculatorMiniAppPackage.swift:153-160 | a non-dot token replaces a lone "0"; anything else is appended, so "0" then "." gives "0."; the display shows the new operand and the staged fields are kept |
| Calculator.OperationInput | CalculatorMiniAppPackage/Sources/CalculatorMiniAppPackage/CalculatorMiniAppPackage.swift:162-168 | with a non-empty operand, the operator moves it to the staged slot, resets the operand to "0" and records the operator; the display is never changed |
| Calculator.EqualsInput | CalculatorMiniAppPackage/Sources/CalculatorMiniAppPackage/CalculatorMiniAppPackage.swift:170-194 | "=" does nothing without both operands; otherwise the printed result becomes operand and display, and the staged operand and operator are cleared |
| Calculator.ClearInput | CalculatorMiniAppPackage/Sources/CalculatorMiniAppPackage/CalculatorMiniAppPackage.swift:196-201 | clear gives operand "0", no staged operand or operator, and display "0" |
| Calculator.Press | CalculatorMiniAppPackage/Sources/CalculatorMiniAppPackage/CalculatorMiniAppPackage.swift:135-146 | the keypad switch sends range and dot titles to number input, operators to staging, "=" to evaluation, "C" to clear, and ignores other titles |
| Calculator.SingleCharRange | CalculatorMiniAppPackage/Sources/CalculatorMiniAppPackage/CalculatorMiniAppPackage.swift:136 | a one-character title lies in the string range "0"..."9" iff it is a decimal digit |
| Calculator.KeypadDispatch | CalculatorMiniAppPackage/Sources/CalculatorMiniAppPackage/CalculatorMiniAppPackage.swift:46-51 | among the seventeen keypad titles, exactly the ten digits and "." reach number input |
| Calculator.NumberKeysNonEmpty | CalculatorMiniAppPackage/Sources/CalculatorMiniAppPackage/CalculatorMiniAppPackage.swift:136-137 | every title that reaches number input is non-empty |
| Calculator.InitialValid | CalculatorMiniAppPackage/Sources/CalculatorMiniAppPackage/CalculatorMiniAppPackage.swift:53-55 | the initial state has a non-empty operand, nothing staged, and a display showing the operand |
| Calculator.PressKeepsValid | CalculatorMiniAppPackage/Sources/CalculatorMiniAppPackage/CalculatorMiniAppPackage.swift:153-201 | every key keeps the operand non-empty, keeps "operand staged iff operator recorded", and keeps the display on the operand whenever nothing is staged |
| Calculator.PressAllKeepsValid | CalculatorMiniAppPackage/Sources/CalculatorMiniAppPackage/CalculatorMiniAppPackage.swift:53-201 | after any sequence of keys from a valid state the operand is non-empty, an operand is staged iff an operator is, and with nothing staged the display shows the operand |
| Calculator.OperatorAlwaysStages | CalculatorMiniAppPackage/Sources/CalculatorMiniAppPackage/CalculatorMiniAppPackage.swift:163-167 | in any reachable state the guard of operator input passes, so the operand is always staged |
| Calculator.OperatorTwice | CalculatorMiniAppPackage/Sources/CalculatorMiniAppPackage/CalculatorMiniAppPackage.swift:162-168 | two operators in a row stage "0" under the second operator |
| Calculator.EqualsLeavesNothingStaged | CalculatorMiniAppPackage/Sources/CalculatorMiniAppPackage/CalculatorMiniAppPackage.swift:171-193 | after "=" in any reachable state, no operand or operator is staged |
| Calculator.ClearIdempotent | CalculatorMiniAppPackage/Sources/CalculatorMiniAppPackage/CalculatorMiniAppPackage.swift:196-201 | clearing twice equals clearing once |
| Calculator.DisplayTracksCurrent | CalculatorMiniAppPackage/Sources/CalculatorMiniAppPackage/CalculatorMiniAppPackage.swift:153-201 | from any valid state: with nothing staged afterwards the display shows the operand; after a digit, ".", "=" or "C" it shows the operand; an operator leaves the display unchanged |
| Calculator.FivePlusThree | CalculatorMiniAppPackage/Sources/CalculatorMiniAppPackage/CalculatorMiniAppPackage.swift:170-194 | keys 5, +, 3, = leave the printed result as operand and display with nothing staged |
| Calculator.UpdateDisplayMode | CalculatorMiniAppPackage/Sources/CalculatorMiniAppPackage/CalculatorMiniAppPackage.swift:205-222 | title and icon are hidden, and the result label shown, iff the token is not "oneEighth"; for a known token the keypad is hidden iff it is "oneEighth"; an unknown token leaves the keypad as it was |
| Calculator.HalfAsFullScreen | CalculatorMiniAppPackage/Sources/CalculatorMiniAppPackage/CalculatorMiniAppPackage.swift:212-216 | "half" and "fullScreen" give the same layout |
| Calculator.UnknownTokenDiffersFromOneEighth | CalculatorMiniAppPackage/Sources/CalculatorMiniAppPackage/CalculatorMiniAppPackage.swift:217-221 | an unknown token never gives the "oneEighth" layout; it gives the "half" layout with the keypad left as it was |
| Calculator.DisplayIdempotent | CalculatorMiniAppPackage/Sources/CalculatorMiniAppPackage/CalculatorMiniAppPackage.swift:205-222 | sending the same token twice gives the same layout as sending it once |
| Weather.UpdateDisplayMode | WeatherMiniAppPackage/Sources/WeatherMiniAppPackage/WeatherMiniApp.swift:176-190 | "oneEighth" hides both labels and makes the axis horizontal; "half" and "fullScreen" show them and make it vertical; an unknown token shows them and keeps the axis |
| Weather.HalfAsFullScreen | WeatherMiniAppPackage/Sources/WeatherMiniAppPackage/WeatherMiniApp.swift:182-185 | "half" and "fullScreen" give the same layout |
| Weather.DisplayIdempotent | WeatherMiniAppPackage/Sources/WeatherMiniAppPackage/WeatherMiniApp.swift:176-190 | sending the same token twice gives the same layout as sending it once |
| Weather.OneEighthKeepsInitial | WeatherMiniAppPackage/Sources/WeatherMiniAppPackage/WeatherMiniApp.swift:15-61 | the initial state (both labels hidden, horizontal axis) is already the "oneEighth" layout |
| Host.Token | MiniAppsProject/MiniAppsProject/MainViewController.swift:141-149 | each mode maps to its own token, and only "oneEighth", "half" or "fullScreen" are ever produced |
| Host.TokenInjective | MiniAppsProject/MiniAppsProject/MainViewController.swift:142-149 | distinct modes produce distinct tokens |
| Host.SendToken | MiniAppsProject/MiniAppsProject/MainViewController.swift:140-151 | broadcasting a token gives each widget exactly the view its own `updateDisplayMode(to:)` computes from that token, and keeps its kind and its game or calculator state |
| Host.Launch | MiniAppsProject/MiniAppsProject/MainViewController.swift:36-49 | the controller starts in compact mode with ten entries, position i holding Weather, TicTacToe, Calculator or GuessNumber by i mod 4, all interactive and freshly created (initial flags, empty boards, zero scores, calculator at "0"), with the two guess-the-number entries holding their own first draws |
| Host.LaunchedGamesBalanced | MiniAppsProject/MiniAppsProject/MainViewController.swift:36-49 | every tic-tac-toe game on the launched roster stays balanced under any sequence of taps and restarts |
| Host.LaunchHasTenRows | MiniAppsProject/MiniAppsProject/MainViewController.swift:118-120 | the table reports ten rows, the roster size |
| Host.SetDisplayMode | MiniAppsProject/MiniAppsProject/MainViewController.swift:92 | changing the mode stores it and changes nothing else |
| Host.ConfigureCell | MiniAppsProject/MiniAppsProject/MainViewController.swift:122-157 | a configured cell holds exactly the row's roster entry; that entry gets the mode's token and is interactive iff the mode is not compact; the mode and all other entries are unchanged |
| Host.ReusedCellForgotten | MiniAppsProject/MiniAppsProject/MainViewController.swift:126-127 | the configured row does not depend on what the reused cell held, because its subviews are removed first |
| Host.ConfigureIdempotent | MiniAppsProject/MiniAppsProject/MainViewController.swift:122-157 | configuring the same row twice under the same mode gives the same cell and widget state as configuring it once |
| Host.ReloadData | MiniAppsProject/MiniAppsProject/MainViewController.swift:122-157 | after a reload, cell i holds exactly entry i, every entry shows the stored mode's layout, and the mode is unchanged |
| Host.SelectMode | MiniAppsProject/MiniAppsProject/MainViewController.swift:76-94 | after a menu item, the stored mode is the chosen one, cell i holds exactly entry i, and every entry is hosted under the chosen mode whatever mode it was shown in before |
| Host.LastModeWins | MiniAppsProject/MiniAppsProject/MainViewController.swift:140-153 | hosting an entry under one mode and then another is the same as hosting it under the second alone |
| Host.HostedFollowsMode | MiniAppsProject/MiniAppsProject/MainViewController.swift:140-154 | a hosted entry accepts input iff the mode is not compact, and its key views (weather axis, board cells, keypad, slider) follow the mode |
| Host.HostNeverReachesDefault | MiniAppsProject/MiniAppsProject/MainViewController.swift:141-150 | under a host token the calculator's layout no longer depends on its previous keypad flag, so its default branch is never taken |

## Left out

- Layout and presentation are left out: Auto Layout constraints, `layoutSubviews`, orientation notifications, fonts, colours and images. They hold no state logic.
- Alert presentation is left out. An alert is an element of `TapResult.alerts` or the `Victory` outcome. Its restart button is the separate `Restart` action. Modality is not modelled, so a tap after a win is processed as the code would process it if no alert blocked input. When one tap requests two alerts, UIKit shows only the first, because the controller is already presenting it; the model lists both requests.
- `UIView.animate` in guess-the-number is left out. The label texts change at once.
- The turn label's text is left out. It is always the symbol of `currentTurn`.
- `Double` parsing, the operator switch of `=`, and `"\(result)"` are left out. They are floating point. The `Evaluator` parameter stands for all three, and the model assumes only that its result is non-empty. Division by zero and unparsable operands are therefore the evaluator's business.
- The `guard let title = button.currentTitle` in the keypad action is left out. Every keypad button has a title.
- `Int.random(in:)` is left out. A draw is an argument in 1...100.
- `Int(slider.value)` truncation is left out. The slider is a whole number in 1...100.
- `availableHeight(for:)`, `heightForRowAt` and the raw `Double` fractions of `DisplayMode` are left out. They are window geometry.
- The navigation-bar menu's construction is left out. Each menu item calls `updateDisplayMode(_:)`, which is `Host.SetDisplayMode` followed by `Host.ReloadData`, together `Host.SelectMode`.
- Host.ReloadData: UIKit decides which rows it asks for and when. The model configures every row in order. It also leaves out UIKit detaching a view from its previous cell when the view is added to a new one.
- Cell subviews other than roster entries are left out. A cell's content is the list of roster positions it hosts.
- The weather widget's location request, network fetch, temperature label, activity indicator and error alerts are left out. They are CoreLocation and URLSession I/O. `LocationManager.swift`, `NetworkManager.swift` and `WeatherModel.swift` are not part of this model.
- `Package.swift` files are left out. They are build configuration.
- TicTacToe.UpdateDisplayMode: one flag stands for the nine cell buttons, which the code always sets together.
- Calculator.Press: `LexLe` compares strings character by character on code points. Swift's `String` comparison uses Unicode canonical equivalence, so for titles containing combining characters the `"0"..."9"` range may decide differently. The two agree on the seventeen keypad titles.
- Calculator.UpdateDisplayMode: one flag stands for the seventeen keypad buttons, which the code always sets together.
