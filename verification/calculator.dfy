/**
 The calculator mini-app: three strings (`currentNumber`, `previousNumber`,
 `operation`) and the text of the result label, driven by a keypad of 17
 titled buttons. The arithmetic of `=` (parse both operands as `Double`,
 apply the operator, print the result with `"\(result)"`) is floating point
 and is taken as a parameter: an `Evaluator` that maps the two operand
 strings and the operator to the printed result. A printed `Double` is
 never empty, which is all the model assumes about it.
 */
module Calculator {
  import opened ModeTokens

  type NonEmptyString = s: string | s != [] witness "0"

  /** (previousNumber, currentNumber, operation) to the printed result. */
  type Evaluator = (string, string, string) -> NonEmptyString

  datatype Calc = Calc(current: string, previous: string, operation: string, display: string)

  const Initial: Calc := Calc("0", "", "", "0")

  const Operators: set<string> := {"/", "*", "-", "+"}

  /** `handleNumberInput`: a leading "0" is replaced by a digit but kept in
      front of a ".". No check against a second ".". */
  function NumberInput(c: Calc, token: string): (r: Calc)
    ensures c.current == "0" && token != "." ==> r.current == token
    ensures c.current != "0" || token == "." ==> r.current == c.current + token
    ensures r.display == r.current
    ensures r.previous == c.previous && r.operation == c.operation
  {
    var next := if c.current == "0" && token != "." then token else c.current + token;
    Calc(next, c.previous, c.operation, next)
  }

  /** `handleOperationInput`: stage the current operand behind `op`. The
      result label is not touched. */
  function OperationInput(c: Calc, op: string): (r: Calc)
    ensures c.current != "" ==> r.previous == c.current && r.current == "0" && r.operation == op
    ensures c.current == "" ==> r == c
    ensures r.display == c.display
  {
    if c.current != "" then Calc("0", c.current, op, c.display) else c
  }

  /** `handleEqualsInput`: nothing happens unless both operands are present;
      otherwise the printed result becomes the current operand and the
      display, and the staged operand and operator are cleared. */
  function EqualsInput(c: Calc, eval: Evaluator): (r: Calc)
    ensures c.previous == "" || c.current == "" ==> r == c
    ensures c.previous != "" && c.current != "" ==>
      && r.current == eval(c.previous, c.current, c.operation)
      && r.display == r.current
      && r.previous == "" && r.operation == ""
  {
    if c.previous == "" || c.current == "" then c
    else
      var result := eval(c.previous, c.current, c.operation);
      Calc(result, "", "", result)
  }

  /** `handleClearInput` */
  function ClearInput(c: Calc): (r: Calc)
    ensures r.current == "0" && r.previous == "" && r.operation == "" && r.display == "0"
  {
    Initial
  }

  // ---------------------------------------------------------------------------
  // Keypad dispatch
  // ---------------------------------------------------------------------------

  /** Swift's `<=` on strings, for the characters that occur here: compare
      the first differing character, and a proper prefix comes first. */
  predicate LexLe(a: string, b: string)
    decreases |a|
  {
    |a| == 0 || (|b| > 0 && (a[0] < b[0] || (a[0] == b[0] && LexLe(a[1..], b[1..]))))
  }

  /** The first case of the keypad switch, `case "0"..."9", "."`; the range
      pattern is a lexicographic range of strings. */
  predicate IsNumberKey(title: string) {
    (LexLe("0", title) && LexLe(title, "9")) || title == "."
  }

  /** The button titles, row by row. */
  const Keypad: seq<string> := ["C", "7", "8", "9", "/", "4", "5", "6", "*", "1", "2", "3", "-", "0", ".", "=", "+"]

  /** The keypad switch: digits and ".", operators, "=", "C", and nothing
      for any other title. */
  function Press(c: Calc, title: string, eval: Evaluator): (r: Calc)
    ensures IsNumberKey(title) ==> r == NumberInput(c, title)
    ensures !IsNumberKey(title) && title in Operators ==> r == OperationInput(c, title)
    ensures !IsNumberKey(title) && title == "=" ==> r == EqualsInput(c, eval)
    ensures !IsNumberKey(title) && title == "C" ==> r == ClearInput(c)
    ensures !IsNumberKey(title) && title !in Operators && title != "=" && title != "C" ==> r == c
  {
    if IsNumberKey(title) then NumberInput(c, title)
    else if title in Operators then OperationInput(c, title)
    else if title == "=" then EqualsInput(c, eval)
    else if title == "C" then ClearInput(c)
    else c
  }

  /** A single character lies in the range `"0"..."9"` iff it is a digit. */
  lemma SingleCharRange(ch: char)
    ensures LexLe("0", [ch]) && LexLe([ch], "9") <==> '0' <= ch <= '9'
  {
    assert [ch][1..] == [];
    assert "0"[1..] == [] && "9"[1..] == [];
  }

  /** On the actual keypad the range pattern picks out exactly the ten digit
      buttons, so no operator, "=" or "C" falls into the number case. */
  lemma KeypadDispatch(title: string)
    requires title in Keypad
    ensures IsNumberKey(title) <==> title == "." || (|title| == 1 && '0' <= title[0] <= '9')
  {
    assert |title| == 1;
    SingleCharRange(title[0]);
    assert title == [title[0]];
  }

  // ---------------------------------------------------------------------------
  // Invariants
  // ---------------------------------------------------------------------------

  /** The current operand is never empty, an operand is staged exactly when
      an operator is, and while nothing is staged the result label shows the
      current operand. */
  predicate Valid(c: Calc) {
    && c.current != ""
    && (c.previous == "" <==> c.operation == "")
    && (c.previous == "" ==> c.display == c.current)
  }

  lemma InitialValid()
    ensures Valid(Initial)
  {
  }

  lemma PressKeepsValid(c: Calc, title: string, eval: Evaluator)
    requires Valid(c)
    ensures Valid(Press(c, title, eval))
  {
    NumberKeysNonEmpty(title);
  }

  /** The empty title is below "0", so a number key always appends something. */
  lemma NumberKeysNonEmpty(title: string)
    ensures IsNumberKey(title) ==> title != ""
  {
  }

  /** The result of pressing `titles` in order. */
  function PressAll(c: Calc, titles: seq<string>, eval: Evaluator): Calc
    decreases |titles|
  {
    if |titles| == 0 then c else PressAll(Press(c, titles[0], eval), titles[1..], eval)
  }

  /** From launch, whatever keys are pressed, the operand is never empty and
      an operand is staged exactly when an operator is. */
  lemma {:induction false} PressAllKeepsValid(c: Calc, titles: seq<string>, eval: Evaluator)
    requires Valid(c)
    ensures PressAll(c, titles, eval).current != ""
    ensures PressAll(c, titles, eval).previous == "" <==> PressAll(c, titles, eval).operation == ""
    ensures PressAll(c, titles, eval).previous == "" ==> PressAll(c, titles, eval).display == PressAll(c, titles, eval).current
    decreases |titles|
  {
    if |titles| > 0 {
      PressKeepsValid(c, titles[0], eval);
      PressAllKeepsValid(Press(c, titles[0], eval), titles[1..], eval);
    }
  }

  /** Since the current operand is never empty, the guard in
      `handleOperationInput` always passes: an operator key always stages. */
  lemma OperatorAlwaysStages(c: Calc, op: string)
    requires Valid(c)
    ensures OperationInput(c, op).previous == c.current
    ensures OperationInput(c, op).current == "0"
    ensures OperationInput(c, op).operation == op
  {
  }

  /** Two operators in a row stage the "0" the first one left behind. */
  lemma OperatorTwice(c: Calc, op1: string, op2: string)
    requires Valid(c)
    ensures OperationInput(OperationInput(c, op1), op2).previous == "0"
    ensures OperationInput(OperationInput(c, op1), op2).operation == op2
  {
  }

  /** Whatever state `=` is pressed in, afterwards no operand or operator
      is staged: a no-op `=` already had none. */
  lemma EqualsLeavesNothingStaged(c: Calc, eval: Evaluator)
    requires Valid(c)
    ensures EqualsInput(c, eval).previous == "" && EqualsInput(c, eval).operation == ""
  {
  }

  lemma ClearIdempotent(c: Calc)
    ensures ClearInput(ClearInput(c)) == ClearInput(c)
  {
  }

  /** The display lags the operand only while an operand is staged: after a
      digit, ".", "=" or "C" it shows the current operand, and an operator
      key leaves it as it was. */
  lemma DisplayTracksCurrent(c: Calc, title: string, eval: Evaluator)
    requires Valid(c)
    ensures Press(c, title, eval).previous == "" ==> Press(c, title, eval).display == Press(c, title, eval).current
    ensures IsNumberKey(title) || title == "=" || title == "C" ==> Press(c, title, eval).display == Press(c, title, eval).current
    ensures !IsNumberKey(title) && title in Operators ==> Press(c, title, eval).display == c.display
  {
  }

  /** 5 + 3 = with an evaluator that prints "8.0" for it. */
  lemma FivePlusThree(eval: Evaluator)
    requires eval("5", "3", "+") == "8.0"
    ensures Press(Press(Press(Press(Initial, "5", eval), "+", eval), "3", eval), "=", eval) == Calc("8.0", "", "", "8.0")
  {
    KeypadDispatch("5");
    KeypadDispatch("+");
    KeypadDispatch("3");
    KeypadDispatch("=");
  }

  // ---------------------------------------------------------------------------
  // Display mode
  // ---------------------------------------------------------------------------

  /** Hidden flags; the 17 keypad buttons are always written together. */
  datatype Visibility = Visibility(titleHidden: bool, iconHidden: bool, resultHidden: bool, buttonsHidden: bool)

  const InitialVisibility: Visibility := Visibility(false, false, false, false)

  function UpdateDisplayMode(v: Visibility, token: string): (r: Visibility)
    ensures r.titleHidden == r.iconHidden == !r.resultHidden == (token != OneEighth)
    ensures IsKnown(token) ==> r.buttonsHidden == (token == OneEighth)
    ensures !IsKnown(token) ==> r.buttonsHidden == v.buttonsHidden
  {
    match token
    case "oneEighth" => Visibility(false, false, true, true)
    case "half" | "fullScreen" => Visibility(true, true, false, false)
    case _ => Visibility(true, true, false, v.buttonsHidden)
  }

  lemma HalfAsFullScreen(v: Visibility)
    ensures UpdateDisplayMode(v, Half) == UpdateDisplayMode(v, FullScreen)
  {
  }

  /** The fallback is not the compact layout: it shows the result label and
      keeps the keypad as it was, so it agrees with "oneEighth" nowhere but
      possibly on the keypad. */
  lemma UnknownTokenDiffersFromOneEighth(v: Visibility, token: string)
    requires !IsKnown(token)
    ensures UpdateDisplayMode(v, token) != UpdateDisplayMode(v, OneEighth)
    ensures UpdateDisplayMode(v, token) == UpdateDisplayMode(v, Half).(buttonsHidden := v.buttonsHidden)
  {
  }

  lemma DisplayIdempotent(v: Visibility, token: string)
    ensures UpdateDisplayMode(UpdateDisplayMode(v, token), token) == UpdateDisplayMode(v, token)
  {
  }

  /** The widget as the host holds it. */
  datatype App = App(state: Calc, view: Visibility)

  const InitialApp: App := App(Initial, InitialVisibility)
}
