/** The game state held by the `App` component and its transitions. The winner is never
    stored: it is recomputed from the cells after every transition, which is what the
    `[cells]` effect converges to. The delayed AI move is an explicit transition. */
module Controller {

  import opened Wrappers
  import opened Cells
  import opened Evaluator
  import opened Advisor

  /** `"pvp"` or `"ai"`. */
  datatype Mode = Pvp | Ai

  /** `mode`, `cells` and `isXNext`. */
  datatype Game = Game(mode: Mode, cells: Board, xNext: bool)

  /** In AI mode the human plays X and the AI plays O. */
  const HumanMark: Mark := X
  const AiMark: Mark := O

  /** The `winner` state, recomputed from the cells as the `[cells]` effect does. A
      reported mark owns a complete line, and a draw is only reported on a full board. */
  function Winner(g: Game): (w: Outcome)
    ensures w.Win? ==> HasLine(g.cells, w.winner)
    ensures w == Draw ==> Full(g.cells) && !HasLine(g.cells, X) && !HasLine(g.cells, O)
  {
    Evaluate(g.cells)
  }

  /** `winner` is truthy: a mark has won or the game is drawn. */
  predicate Decided(g: Game)
  {
    !Winner(g).Undecided?
  }

  /** The mark written by the next accepted move. */
  function ToMove(g: Game): (m: Mark)
  {
    if g.xNext then X else O
  }

  /** `isAITurn`: AI mode, no result, and O to move. An undecided board is never full,
      so on the AI's turn there is always a free cell. */
  predicate IsAiTurn(g: Game)
    ensures IsAiTurn(g) ==> !Full(g.cells)
  {
    g.mode == Ai && !Decided(g) && !g.xNext
  }

  /** The state after a reset in mode `mode`: nine empty cells, X to move, no result. */
  function Reset(mode: Mode): (g: Game)
    ensures g.mode == mode && g.xNext
    ensures forall i | 0 <= i < 9 :: g.cells[i] == Empty
    ensures Winner(g) == Undecided
  {
    var g := Game(mode, EmptyBoard(), true);
    assert NoLineWon(g.cells) by {
      forall k | 0 <= k < |Lines| ensures !LineWon(g.cells, k) {
        assert g.cells[Lines[k].a] == Empty;
      }
    }
    assert g.cells[0] == Empty;
    g
  }

  /** `handleMove(idx)`: rejected once the game is decided or when the cell is taken;
      otherwise the current mark is written at `idx` and the turn passes. */
  function Move(g: Game, idx: Index): (g': Game)
    ensures Decided(g) || g.cells[idx] != Empty ==> g' == g
    ensures !Decided(g) && g.cells[idx] == Empty ==>
      && g'.mode == g.mode
      && g'.xNext == !g.xNext
      && g'.cells[idx] == Filled(ToMove(g))
      && (forall j | 0 <= j < 9 && j != idx :: g'.cells[j] == g.cells[j])
  {
    if Decided(g) || g.cells[idx] != Empty then g
    else g.(cells := g.cells[idx := Filled(ToMove(g))], xNext := !g.xNext)
  }

  /** `handleCellClick(idx)`: in AI mode only the human, on X's turn of an undecided game,
      may move; in PvP mode every click goes to `handleMove`. */
  function Click(g: Game, idx: Index): (g': Game)
    ensures g.mode == Ai && (!g.xNext || Decided(g)) ==> g' == g
    ensures g.mode == Pvp || (g.xNext && !Decided(g)) ==> g' == Move(g, idx)
    ensures g.mode == Ai && g' != g ==> g'.cells[idx] == Filled(HumanMark)
  {
    if g.mode == Ai && (!g.xNext || Decided(g)) then g
    else Move(g, idx)
  }

  /** The AI-turn effect firing: when it is the AI's turn, the picker's cell for O is
      played through `handleMove`; otherwise no timer is pending and nothing happens. */
  function AiStep(g: Game): (g': Game)
    ensures !IsAiTurn(g) ==> g' == g
    ensures IsAiTurn(g) ==>
      var pick := PickMove(g.cells, AiMark, HumanMark);
      && pick.Some?
      && g.cells[pick.value] == Empty
      && g'.cells == g.cells[pick.value := Filled(AiMark)]
      && g'.xNext && g'.mode == g.mode
  {
    if !IsAiTurn(g) then g
    else
      match PickMove(g.cells, AiMark, HumanMark)
      case None => g
      case Some(i) => Move(g, i)
  }

  /** `handleRestart`: back to the reset state, keeping the mode. */
  function Restart(g: Game): (g': Game)
    ensures g'.mode == g.mode && g'.xNext
    ensures forall i | 0 <= i < 9 :: g'.cells[i] == Empty
    ensures Winner(g') == Undecided
  {
    Reset(g.mode)
  }

  /** `handleModeChange(next)` followed by the `[mode]` effect. React runs the effect only
      when the mode value changes, so selecting the current mode changes nothing. */
  function SetMode(g: Game, next: Mode): (g': Game)
    ensures next == g.mode ==> g' == g
    ensures next != g.mode ==>
      g'.mode == next && g'.xNext && Winner(g') == Undecided
      && forall i | 0 <= i < 9 :: g'.cells[i] == Empty
  {
    if next == g.mode then g else Reset(next)
  }

  /** The inputs the component reacts to. */
  datatype Event = CellClicked(idx: Index) | RestartPressed | ModeSelected(mode: Mode) | AiTimerFired

  /** One event applied to the state; only a mode selection can change the mode. */
  function Step(g: Game, e: Event): (g': Game)
    ensures !e.ModeSelected? ==> g'.mode == g.mode
  {
    match e
    case CellClicked(i) => Click(g, i)
    case RestartPressed => Restart(g)
    case ModeSelected(m) => SetMode(g, m)
    case AiTimerFired => AiStep(g)
  }

  /** The state after a sequence of events. */
  function Run(g: Game, es: seq<Event>): (g': Game)
    decreases |es|
  {
    if |es| == 0 then g else Run(Step(g, es[0]), es[1..])
  }

  /** Mark-count balance: X moved as often as O and X is next, or X moved once more and
      O is next. */
  predicate Balanced(g: Game)
  {
    var xs := Count(g.cells, Filled(X));
    var os := Count(g.cells, Filled(O));
    (xs == os && g.xNext) || (xs == os + 1 && !g.xNext)
  }

  /** At most one of the two marks has a complete line. */
  predicate SingleWinner(g: Game)
  {
    !(HasLine(g.cells, X) && HasLine(g.cells, O))
  }

  /** The reset state is balanced and has no complete line. */
  lemma ResetInvariant(mode: Mode)
    ensures Balanced(Reset(mode)) && SingleWinner(Reset(mode))
  {
    var g := Reset(mode);
    assert Filled(X) !in g.cells && Filled(O) !in g.cells;
    assert !HasLine(g.cells, X) by {
      forall k | 0 <= k < |Lines| ensures !Completes(g.cells, k, X) {
        assert g.cells[Lines[k].a] == Empty;
      }
    }
  }

  /** An accepted move keeps the balance and cannot give the other mark a line. */
  lemma MoveInvariant(g: Game, idx: Index)
    requires Balanced(g) && SingleWinner(g)
    ensures Balanced(Move(g, idx)) && SingleWinner(Move(g, idx))
  {
    if !Decided(g) && g.cells[idx] == Empty {
      var m := ToMove(g);
      CountAfterWrite(g.cells, idx, m, Filled(X));
      CountAfterWrite(g.cells, idx, m, Filled(O));
      WriteCompletesOnlyOwnLines(g.cells, idx, m);
      assert Move(g, idx).cells == g.cells[idx := Filled(m)];
    }
  }

  /** Every event keeps both invariants. */
  lemma StepInvariant(g: Game, e: Event)
    requires Balanced(g) && SingleWinner(g)
    ensures Balanced(Step(g, e)) && SingleWinner(Step(g, e))
  {
    match e
    case CellClicked(i) => MoveInvariant(g, i);
    case RestartPressed => ResetInvariant(g.mode);
    case ModeSelected(m) => ResetInvariant(m);
    case AiTimerFired =>
      if IsAiTurn(g) {
        match PickMove(g.cells, AiMark, HumanMark)
        case None =>
        case Some(i) => MoveInvariant(g, i);
      }
  }

  /** Every state reachable from a reset is balanced and has at most one winning mark. */
  lemma {:induction false} ReachableInvariant(mode: Mode, es: seq<Event>)
    ensures Balanced(Run(Reset(mode), es)) && SingleWinner(Run(Reset(mode), es))
  {
    ResetInvariant(mode);
    RunInvariant(Reset(mode), es);
  }

  lemma {:induction false} RunInvariant(g: Game, es: seq<Event>)
    requires Balanced(g) && SingleWinner(g)
    ensures Balanced(Run(g, es)) && SingleWinner(Run(g, es))
    decreases |es|
  {
    if |es| > 0 {
      StepInvariant(g, es[0]);
      RunInvariant(Step(g, es[0]), es[1..]);
    }
  }

  /** In a reachable state the line order does not matter: the winner is `m` exactly
      when `m` has a complete line. */
  lemma ReachableWinnerIsTheLineOwner(mode: Mode, es: seq<Event>, m: Mark)
    ensures Winner(Run(Reset(mode), es)) == Win(m) <==> HasLine(Run(Reset(mode), es).cells, m)
  {
    ReachableInvariant(mode, es);
    WinIffHasLine(Run(Reset(mode), es).cells, m);
  }

  /** Once the game is decided, clicks and AI timers change nothing until a reset. */
  lemma FrozenOnceDecided(g: Game, e: Event)
    requires Decided(g)
    requires e.CellClicked? || e.AiTimerFired?
    ensures Step(g, e) == g
  {
  }

  /** On its turn the AI always moves: the board cannot be full while undecided, so the
      picker finds an empty cell and exactly one O is added. */
  lemma AiAlwaysMoves(g: Game)
    requires IsAiTurn(g)
    ensures Count(AiStep(g).cells, Filled(O)) == Count(g.cells, Filled(O)) + 1
    ensures Count(AiStep(g).cells, Filled(X)) == Count(g.cells, Filled(X))
  {
    var i := PickMove(g.cells, AiMark, HumanMark).value;
    CountAfterWrite(g.cells, i, AiMark, Filled(O));
    CountAfterWrite(g.cells, i, AiMark, Filled(X));
  }

  /** In AI mode a click never writes an O: the human only ever plays X. */
  lemma ClickInAiModeWritesX(g: Game, idx: Index)
    requires g.mode == Ai
    ensures Count(Click(g, idx).cells, Filled(O)) == Count(g.cells, Filled(O))
  {
    if Click(g, idx) != g {
      assert Click(g, idx).cells == g.cells[idx := Filled(X)];
      CountAfterWrite(g.cells, idx, X, Filled(O));
    }
  }

  /** A PvP click on an empty cell of a board without a complete line is accepted. */
  lemma OpenBoardClick(g: Game, idx: Index)
    requires g.mode == Pvp && g.cells[idx] == Empty
    // NoLineWon(g.cells), one line at a time: on a concrete board each conjunct is a
    // direct look-up, which keeps the worked games below cheap to verify
    requires !LineWon(g.cells, 0) && !LineWon(g.cells, 1) && !LineWon(g.cells, 2) && !LineWon(g.cells, 3)
    requires !LineWon(g.cells, 4) && !LineWon(g.cells, 5) && !LineWon(g.cells, 6) && !LineWon(g.cells, 7)
    ensures Step(g, CellClicked(idx)) == g.(cells := g.cells[idx := Filled(ToMove(g))], xNext := !g.xNext)
  {
    assert NoLineWon(g.cells);
  }

  /** Running two event sequences one after the other is running their concatenation. */
  lemma {:induction false} RunConcat(g: Game, a: seq<Event>, b: seq<Event>)
    ensures Run(g, a + b) == Run(Run(g, a), b)
    decreases |a|
  {
    if |a| > 0 {
      assert (a + b)[0] == a[0] && (a + b)[1..] == a[1..] + b;
      RunConcat(Step(g, a[0]), a[1..], b);
    } else {
      assert a + b == b;
    }
  }

  /** The opening X@0, O@4, X@1 of the worked game below. */
  lemma TopRowOpening()
    ensures Run(Reset(Pvp), [CellClicked(0), CellClicked(4), CellClicked(1)])
         == Game(Pvp, [Filled(X), Filled(X), Empty, Empty, Filled(O), Empty, Empty, Empty, Empty], false)
  {
    var E, x, o := Empty, Filled(X), Filled(O);
    var es := [CellClicked(0), CellClicked(4), CellClicked(1)];
    var g0 := Reset(Pvp);
    var g1 := Game(Pvp, [x, E, E, E, E, E, E, E, E], false);
    var g2 := Game(Pvp, [x, E, E, E, o, E, E, E, E], true);
    var g3 := Game(Pvp, [x, x, E, E, o, E, E, E, E], false);
    assert Step(g0, es[0]) == g1 by { OpenBoardClick(g0, 0); }
    assert Step(g1, es[1]) == g2 by { OpenBoardClick(g1, 4); }
    assert Step(g2, es[2]) == g3 by { OpenBoardClick(g2, 1); }
    assert es[1..][1..][1..] == [];
    assert Run(g0, es) == Run(g3, []);
  }

  /** The close O@8, X@2 of the worked game below. */
  lemma TopRowClose()
    ensures Run(Game(Pvp, [Filled(X), Filled(X), Empty, Empty, Filled(O), Empty, Empty, Empty, Empty], false),
                [CellClicked(8), CellClicked(2)])
         == Game(Pvp, [Filled(X), Filled(X), Filled(X), Empty, Filled(O), Empty, Empty, Empty, Filled(O)], false)
  {
    var E, x, o := Empty, Filled(X), Filled(O);
    var es := [CellClicked(8), CellClicked(2)];
    var g3 := Game(Pvp, [x, x, E, E, o, E, E, E, E], false);
    var g4 := Game(Pvp, [x, x, E, E, o, E, E, E, o], true);
    var g5 := Game(Pvp, [x, x, x, E, o, E, E, E, o], false);
    assert Step(g3, es[0]) == g4 by { OpenBoardClick(g3, 8); }
    assert Step(g4, es[1]) == g5 by { OpenBoardClick(g4, 2); }
    assert es[1..][1..] == [];
    assert Run(g3, es) == Run(g5, []);
  }

  /** The worked game X@0, O@4, X@1, O@8, X@2 ends with X winning on the top row. */
  lemma TopRowScenario()
    ensures Winner(Run(Reset(Pvp),
      [CellClicked(0), CellClicked(4), CellClicked(1), CellClicked(8), CellClicked(2)])) == Win(X)
  {
    var opening := [CellClicked(0), CellClicked(4), CellClicked(1)];
    var close := [CellClicked(8), CellClicked(2)];
    assert opening + close
        == [CellClicked(0), CellClicked(4), CellClicked(1), CellClicked(8), CellClicked(2)];
    RunConcat(Reset(Pvp), opening, close);
    TopRowOpening();
    TopRowClose();
    var b: Board := [Filled(X), Filled(X), Filled(X), Empty, Filled(O), Empty, Empty, Empty, Filled(O)];
    assert FirstWonLine(b, 0, X);
    EvaluateReportsFirstLine(b, 0, X);
  }
}
