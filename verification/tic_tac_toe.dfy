/**
 The tic-tac-toe mini-app: a 3x3 board of buttons a1..c3 (indices 0..8, row
 by row), the side to move, and a running score per side. A tap writes the
 current side's mark into an empty cell; after every tap, accepted or not,
 the app looks for a crosses line, then for a noughts line, then for a full
 board, and raises one alert per check that succeeds.
 */
module TicTacToe {
  import opened ModeTokens

  /** The app's `Turn` enum; it is also the mark written into a cell. */
  datatype Symbol = Cross | Nought

  function Other(s: Symbol): (r: Symbol)
    ensures r != s
  {
    if s == Cross then Nought else Cross
  }

  /** A button whose title is nil, or one titled "X" / "O". */
  datatype Cell = Empty | Marked(symbol: Symbol)

  type Index = i: int | 0 <= i < 9
  type Board = b: seq<Cell> | |b| == 9 witness [Empty, Empty, Empty, Empty, Empty, Empty, Empty, Empty, Empty]

  /** `firstTurn` is a stored property that nothing ever assigns. */
  const FirstTurn: Symbol := Cross

  datatype Game = Game(board: Board, currentTurn: Symbol, crossesScore: nat, noughtsScore: nat)

  const EmptyBoard: Board := [Empty, Empty, Empty, Empty, Empty, Empty, Empty, Empty, Empty]
  const InitialGame: Game := Game(EmptyBoard, FirstTurn, 0, 0)

  // ---------------------------------------------------------------------------
  // Lines and the two board checks
  // ---------------------------------------------------------------------------

  datatype Line = Line(a: Index, b: Index, c: Index)

  /** The eight victory patterns in the order `checkVictory` lists them. */
  const Lines: seq<Line> := [
    Line(0, 1, 2), Line(3, 4, 5), Line(6, 7, 8),
    Line(0, 3, 6), Line(1, 4, 7), Line(2, 5, 8),
    Line(0, 4, 8), Line(2, 4, 6)
  ]

  predicate Owns(b: Board, sym: Symbol, l: Line) {
    b[l.a] == Marked(sym) && b[l.b] == Marked(sym) && b[l.c] == Marked(sym)
  }

  /** The pattern loop: true as soon as one pattern is entirely `sym`. */
  function AnyLineOwned(b: Board, sym: Symbol, lines: seq<Line>): (r: bool)
    ensures r <==> exists k :: 0 <= k < |lines| && Owns(b, sym, lines[k])
  {
    if |lines| == 0 then false
    else if Owns(b, sym, lines[0]) then true
    else AnyLineOwned(b, sym, lines[1..])
  }

  function CheckVictory(b: Board, sym: Symbol): (r: bool)
    ensures r <==> exists k :: 0 <= k < |Lines| && Owns(b, sym, Lines[k])
  {
    AnyLineOwned(b, sym, Lines)
  }

  /** `allSatisfy { title != nil }` over a run of cells. */
  function AllMarked(cells: seq<Cell>): (r: bool)
    ensures r <==> forall i :: 0 <= i < |cells| ==> cells[i].Marked?
  {
    if |cells| == 0 then true
    else if cells[0] == Empty then false
    else AllMarked(cells[1..])
  }

  function FullBoard(b: Board): (r: bool)
    ensures r <==> forall i: Index :: b[i] != Empty
  {
    AllMarked(b)
  }

  /** The win check spelled out as the eight index triples. */
  lemma CheckVictoryTriples(b: Board, sym: Symbol)
    ensures CheckVictory(b, sym) <==>
      var m := Marked(sym);
      || (b[0] == m && b[1] == m && b[2] == m)
      || (b[3] == m && b[4] == m && b[5] == m)
      || (b[6] == m && b[7] == m && b[8] == m)
      || (b[0] == m && b[3] == m && b[6] == m)
      || (b[1] == m && b[4] == m && b[7] == m)
      || (b[2] == m && b[5] == m && b[8] == m)
      || (b[0] == m && b[4] == m && b[8] == m)
      || (b[2] == m && b[4] == m && b[6] == m)
  {
    assert Lines[0] == Line(0, 1, 2) && Lines[1] == Line(3, 4, 5) && Lines[2] == Line(6, 7, 8);
    assert Lines[3] == Line(0, 3, 6) && Lines[4] == Line(1, 4, 7) && Lines[5] == Line(2, 5, 8);
    assert Lines[6] == Line(0, 4, 8) && Lines[7] == Line(2, 4, 6);
    if CheckVictory(b, sym) {
      var k :| 0 <= k < |Lines| && Owns(b, sym, Lines[k]);
      assert k in {0, 1, 2, 3, 4, 5, 6, 7};
    }
  }

  // ---------------------------------------------------------------------------
  // Transitions
  // ---------------------------------------------------------------------------

  /** `addToBoard`: only a button without a title accepts the tap. */
  function AddToBoard(g: Game, i: Index): (r: Game)
    ensures g.board[i].Marked? ==> r == g
    ensures g.board[i] == Empty ==>
      && r.board[i] == Marked(g.currentTurn)
      && (forall j: Index :: j != i ==> r.board[j] == g.board[j])
      && r.currentTurn == Other(g.currentTurn)
    ensures r.crossesScore == g.crossesScore && r.noughtsScore == g.noughtsScore
  {
    if g.board[i] == Empty then
      Game(g.board[i := Marked(g.currentTurn)], Other(g.currentTurn), g.crossesScore, g.noughtsScore)
    else
      g
  }

  datatype Outcome = CrossesWon | NoughtsWon | Draw

  /** An alert title together with the two scores its message shows. */
  datatype Alert = Alert(outcome: Outcome, noughtsScore: nat, crossesScore: nat)

  function Rank(o: Outcome): nat {
    match o
    case CrossesWon => 0
    case NoughtsWon => 1
    case Draw => 2
  }

  predicate HasAlert(alerts: seq<Alert>, o: Outcome) {
    exists k :: 0 <= k < |alerts| && alerts[k].outcome == o
  }

  datatype TapResult = TapResult(game: Game, alerts: seq<Alert>)

  /** The alerts one tap raises: the crosses check runs before the noughts
      score is touched, so its message still shows the old noughts score. */
  function TapAlerts(crossWin: bool, noughtWin: bool, full: bool, oldNoughts: nat, crosses: nat, noughts: nat): (r: seq<Alert>)
    ensures HasAlert(r, CrossesWon) <==> crossWin
    ensures HasAlert(r, NoughtsWon) <==> noughtWin
    ensures HasAlert(r, Draw) <==> full
    ensures forall j, k :: 0 <= j < k < |r| ==> Rank(r[j].outcome) < Rank(r[k].outcome)
    ensures |r| > 0 && (noughtWin || full) ==> r[|r| - 1].crossesScore == crosses && r[|r| - 1].noughtsScore == noughts
    ensures |r| == (if crossWin then 1 else 0) + (if noughtWin then 1 else 0) + (if full then 1 else 0)
    // the crosses message is built before the noughts score moves
    ensures crossWin ==> r[0] == Alert(CrossesWon, oldNoughts, crosses)
    ensures noughtWin ==> r[if crossWin then 1 else 0] == Alert(NoughtsWon, noughts, crosses)
    ensures full ==> r[|r| - 1] == Alert(Draw, noughts, crosses)
  {
    var c := if crossWin then [Alert(CrossesWon, oldNoughts, crosses)] else [];
    var n := if noughtWin then [Alert(NoughtsWon, noughts, crosses)] else [];
    var d := if full then [Alert(Draw, noughts, crosses)] else [];
    assert crossWin ==> (c + n + d)[0].outcome == CrossesWon;
    assert noughtWin ==> (c + n + d)[|c|].outcome == NoughtsWon;
    assert full ==> (c + n + d)[|c| + |n|].outcome == Draw;
    c + n + d
  }

  /** `boardTapAction`: place, then three independent checks. */
  function Tap(g: Game, i: Index): (r: TapResult)
    // the board and the turn change exactly as `addToBoard` says
    ensures g.board[i].Marked? ==> r.game.board == g.board && r.game.currentTurn == g.currentTurn
    ensures g.board[i] == Empty ==>
      && r.game.board[i] == Marked(g.currentTurn)
      && (forall j: Index :: j != i ==> r.game.board[j] == g.board[j])
      && r.game.currentTurn == Other(g.currentTurn)
    // each score grows by exactly one iff that side owns a line afterwards
    ensures r.game.crossesScore == g.crossesScore + (if CheckVictory(r.game.board, Cross) then 1 else 0)
    ensures r.game.noughtsScore == g.noughtsScore + (if CheckVictory(r.game.board, Nought) then 1 else 0)
    // one alert per successful check, in the order of the checks
    ensures HasAlert(r.alerts, CrossesWon) <==> CheckVictory(r.game.board, Cross)
    ensures HasAlert(r.alerts, NoughtsWon) <==> CheckVictory(r.game.board, Nought)
    ensures HasAlert(r.alerts, Draw) <==> FullBoard(r.game.board)
    ensures forall j, k :: 0 <= j < k < |r.alerts| ==> Rank(r.alerts[j].outcome) < Rank(r.alerts[k].outcome)
    // the last alert's message shows the final scores
    ensures |r.alerts| > 0 ==>
      r.alerts[|r.alerts| - 1].crossesScore == r.game.crossesScore &&
      r.alerts[|r.alerts| - 1].noughtsScore == r.game.noughtsScore
  {
    var placed := AddToBoard(g, i);
    var crossWin := CheckVictory(placed.board, Cross);
    var noughtWin := CheckVictory(placed.board, Nought);
    var crosses := placed.crossesScore + (if crossWin then 1 else 0);
    var noughts := placed.noughtsScore + (if noughtWin then 1 else 0);
    TapResult(Game(placed.board, placed.currentTurn, crosses, noughts),
              TapAlerts(crossWin, noughtWin, FullBoard(placed.board), placed.noughtsScore, crosses, noughts))
  }

  /** The crosses alert is built before the noughts score moves, so when
      both sides own a line its message shows the noughts score from before
      the tap. */
  lemma CrossesAlertShowsOldNoughts(g: Game, i: Index)
    ensures CheckVictory(Tap(g, i).game.board, Cross) ==>
      |Tap(g, i).alerts| > 0 && Tap(g, i).alerts[0] == Alert(CrossesWon, g.noughtsScore, Tap(g, i).game.crossesScore)
  {
  }

  /** `resetBoard`: the alert's restart handler. */
  function ResetBoard(g: Game): (r: Game)
    ensures forall i: Index :: r.board[i] == Empty
    ensures r.currentTurn == FirstTurn
    ensures r.crossesScore == g.crossesScore && r.noughtsScore == g.noughtsScore
  {
    Game(EmptyBoard, FirstTurn, g.crossesScore, g.noughtsScore)
  }

  // ---------------------------------------------------------------------------
  // Mark counts and the turn invariant
  // ---------------------------------------------------------------------------

  function Count(cells: seq<Cell>, sym: Symbol): nat
  {
    if |cells| == 0 then 0
    else (if cells[0] == Marked(sym) then 1 else 0) + Count(cells[1..], sym)
  }

  /** Marking an empty cell adds one to that symbol's count and none to the other's. */
  lemma {:induction false} CountAfterMark(cells: seq<Cell>, i: int, sym: Symbol)
    requires 0 <= i < |cells| && cells[i] == Empty
    ensures Count(cells[i := Marked(sym)], sym) == Count(cells, sym) + 1
    ensures Count(cells[i := Marked(sym)], Other(sym)) == Count(cells, Other(sym))
  {
    var marked := cells[i := Marked(sym)];
    if i == 0 {
      assert marked[1..] == cells[1..];
    } else {
      assert marked[1..] == cells[1..][i - 1 := Marked(sym)];
      CountAfterMark(cells[1..], i - 1, sym);
    }
  }

  lemma {:induction false} CountEmpty(n: nat, sym: Symbol)
    ensures Count(seq(n, _ => Empty), sym) == 0
  {
    if n > 0 {
      assert seq(n, _ => Empty)[1..] == seq(n - 1, _ => Empty);
      CountEmpty(n - 1, sym);
    }
  }

  /** Alternating play from `firstTurn = Cross`: crosses lead by at most one,
      and it is crosses' turn exactly when the counts are level. */
  predicate Balanced(g: Game) {
    CountsBalanced(Count(g.board, Cross), Count(g.board, Nought), g.currentTurn)
  }

  predicate CountsBalanced(crosses: nat, noughts: nat, turn: Symbol) {
    (crosses == noughts || crosses == noughts + 1) && (turn == Cross <==> crosses == noughts)
  }

  lemma InitialBalanced()
    ensures Balanced(InitialGame)
  {
    CountEmpty(9, Cross);
    CountEmpty(9, Nought);
  }

  lemma TapKeepsBalanced(g: Game, i: Index)
    requires Balanced(g)
    ensures Balanced(Tap(g, i).game)
  {
    if g.board[i] == Empty {
      CountAfterMark(g.board, i, g.currentTurn);
      assert Tap(g, i).game.board == g.board[i := Marked(g.currentTurn)];
    }
  }

  lemma ResetBalanced(g: Game)
    ensures Balanced(ResetBoard(g))
  {
    CountEmpty(9, Cross);
    CountEmpty(9, Nought);
  }

  /** A user action: a tap on a cell, or the alert's restart button. */
  datatype Action = TapCell(cell: Index) | Restart

  function Step(g: Game, a: Action): Game {
    match a
    case TapCell(i) => Tap(g, i).game
    case Restart => ResetBoard(g)
  }

  function Play(g: Game, actions: seq<Action>): Game
    decreases |actions|
  {
    if |actions| == 0 then g else Play(Step(g, actions[0]), actions[1..])
  }

  lemma {:induction false} PlayKeepsBalanced(g: Game, actions: seq<Action>)
    requires Balanced(g)
    ensures Balanced(Play(g, actions))
    decreases |actions|
  {
    if |actions| > 0 {
      match actions[0] {
        case TapCell(i) => TapKeepsBalanced(g, i);
        case Restart => ResetBalanced(g);
      }
      PlayKeepsBalanced(Step(g, actions[0]), actions[1..]);
    }
  }

  /** Every state reachable from launch satisfies the turn invariant. */
  lemma {:induction false} ReachableBalanced(actions: seq<Action>)
    ensures Balanced(Play(InitialGame, actions))
  {
    InitialBalanced();
    PlayKeepsBalanced(InitialGame, actions);
  }

  /** Scores never decrease, whatever the user does. */
  lemma {:induction false} PlayScoresMonotone(g: Game, actions: seq<Action>)
    ensures Play(g, actions).crossesScore >= g.crossesScore
    ensures Play(g, actions).noughtsScore >= g.noughtsScore
    decreases |actions|
  {
    if |actions| > 0 {
      PlayScoresMonotone(Step(g, actions[0]), actions[1..]);
    }
  }

  /** Because the checks run after every tap, a rejected tap on a board that
      already holds a crosses line scores that line again. */
  lemma RejectedTapRescores(g: Game, i: Index)
    requires g.board[i].Marked? && CheckVictory(g.board, Cross)
    ensures Tap(g, i).game.board == g.board
    ensures Tap(g, i).game.crossesScore == g.crossesScore + 1
  {
  }

  /** X X _ / O O _ / _ _ _ with crosses to move: a tap on cell 2 completes
      the top row, scores one for crosses and raises exactly one alert. */
  lemma CrossesCompleteTopRow(g: Game)
    requires g.board == [Marked(Cross), Marked(Cross), Empty, Marked(Nought), Marked(Nought), Empty, Empty, Empty, Empty]
    requires g.currentTurn == Cross
    ensures Tap(g, 2).game.crossesScore == g.crossesScore + 1
    ensures Tap(g, 2).game.noughtsScore == g.noughtsScore
    ensures Tap(g, 2).alerts == [Alert(CrossesWon, g.noughtsScore, g.crossesScore + 1)]
  {
    var b := AddToBoard(g, 2).board;
    assert b == [Marked(Cross), Marked(Cross), Marked(Cross), Marked(Nought), Marked(Nought), Empty, Empty, Empty, Empty];
    CheckVictoryTriples(b, Cross);
    CheckVictoryTriples(b, Nought);
    assert !FullBoard(b) by { assert b[8] == Empty; }
  }

  // ---------------------------------------------------------------------------
  // Display mode
  // ---------------------------------------------------------------------------

  /** The hidden flags `updateDisplayMode` writes; the nine cell buttons are
      always written together, so one flag stands for all of them. */
  datatype Visibility = Visibility(titleHidden: bool, iconHidden: bool, turnLabelHidden: bool, cellsHidden: bool)

  /** Views start visible until the host sends the first token. */
  const InitialVisibility: Visibility := Visibility(false, false, false, false)

  function UpdateDisplayMode(v: Visibility, token: string): (r: Visibility)
    ensures !r.cellsHidden <==> IsExpanded(token)
    ensures r.turnLabelHidden == r.cellsHidden
    ensures r.titleHidden == r.iconHidden == !r.cellsHidden
  {
    match token
    case "oneEighth" => Visibility(false, false, true, true)
    case "half" | "fullScreen" => Visibility(true, true, false, false)
    case _ => Visibility(false, false, true, true)
  }

  lemma UnknownTokenAsOneEighth(v: Visibility, token: string)
    requires !IsKnown(token)
    ensures UpdateDisplayMode(v, token) == UpdateDisplayMode(v, OneEighth)
  {
  }

  lemma HalfAsFullScreen(v: Visibility)
    ensures UpdateDisplayMode(v, Half) == UpdateDisplayMode(v, FullScreen)
  {
  }

  /** Nothing the widget shows depends on what it showed before. */
  lemma DisplayForgetsPrior(v: Visibility, w: Visibility, token: string)
    ensures UpdateDisplayMode(v, token) == UpdateDisplayMode(w, token)
  {
  }

  lemma DisplayIdempotent(v: Visibility, token: string)
    ensures UpdateDisplayMode(UpdateDisplayMode(v, token), token) == UpdateDisplayMode(v, token)
  {
  }

  /** The widget as the host holds it. */
  datatype App = App(game: Game, view: Visibility)

  const InitialApp: App := App(InitialGame, InitialVisibility)
}
