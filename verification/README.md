# Tic-tac-toe game logic

A Dafny model of the game logic of the browser tic-tac-toe component
(`tic_tac_toe_frontend/src/App.js`): the win/draw evaluator `calculateWinner`,
the heuristic move picker `getAIMove`, and the state transitions of the `App`
component (a move, a cell click, restart, mode change, and the AI's move).

- `cells.dfy` (module `Cells`): marks, cells, the nine-cell board, mark counting.
- `evaluator.dfy` (module `Evaluator`): the eight lines in scanning order and
  `Evaluate`, the model of `calculateWinner`; `Win(m)`, `Draw` and `Undecided`
  stand for `"X"`/`"O"`, `'draw'` and `null`.
- `advisor.dfy` (module `Advisor`): `PickMove`, the model of `getAIMove`, with
  its five rules in priority order.
- `controller.dfy` (module `Controller`): the `App` state (`mode`, `cells`,
  `isXNext`) as an immutable record. The `winner` state is not stored. It is
  recomputed from the cells (`Winner`), which is the value the `[cells]`
  effect settles on. The delayed AI move is an explicit `AiTimerFired` event.
  `Run` folds a sequence of events over a state, and the invariants are proved
  for every state reachable from a reset.
- `wrappers.dfy` (module `Wrappers`): `Option`, standing for the source's `null`.

## Model

| member | source | states |
|---|---|---|
| Cells.CountAfterWrite | tic_tac_toe_frontend/src/App.js:186-190 | writing a mark into an empty cell adds exactly one of that mark and leaves the count of the other mark unchanged |
| Evaluator.Scan | tic_tac_toe_frontend/src/App.js:16-24 | the line loop from position k returns nothing exactly when no later line is complete, and otherwise returns the mark of a complete line with no complete line scanned before it |
| Evaluator.Evaluate | tic_tac_toe_frontend/src/App.js:5-27 | a win is reported exactly when some line is complete, and its mark is that of the first complete line in row, column, diagonal order; draw exactly when no line is complete and every cell is filled; no result exactly when no line is complete and some cell is empty |
| Evaluator.LinesDistinct | tic_tac_toe_frontend/src/App.js:6-15 | each of the eight lines names three different cells |
| Evaluator.EvaluateReportsFirstLine | tic_tac_toe_frontend/src/App.js:16-24 | if line j is complete for m and no earlier line is complete, the result is a win for m, whatever later lines hold |
| Evaluator.WinIffHasLine | tic_tac_toe_frontend/src/App.js:16-24 | when at most one mark has a complete line, the result is a win for m exactly when m has a complete line, so the scanning order does not matter |
| Evaluator.WriteCompletesOnlyOwnLines | tic_tac_toe_frontend/src/App.js:16-24 | writing m on a board with no complete line never completes a line for the other mark |
| Evaluator.EarlierLineWinsOnFullBoard | tic_tac_toe_frontend/src/App.js:16-25 | on the full board X X X / O O O / X O X both marks have a line; the row of X is scanned first, so the result is a win for X, not O and not a draw |
| Evaluator.TwoLinesInOneMove | tic_tac_toe_frontend/src/App.js:6-24 | X at 0 on _ X X / X O O / X O O, a board without a complete line, completes row 0-1-2 and column 0-3-6 at once, and the result is a win for X |
| Evaluator.FullBoardWithoutLineIsDraw | tic_tac_toe_frontend/src/App.js:25 | the full board X O X / X O O / O X X is a draw |
| Advisor.FirstWinning | tic_tac_toe_frontend/src/App.js:32-50 | the win/block loop from index i returns the lowest index at or after i whose cell is empty and, filled with the mark, makes the evaluator report that mark; nothing if there is none |
| Advisor.FirstEmptyCorner | tic_tac_toe_frontend/src/App.js:54-57 | returns the first empty corner in the order 0, 2, 6, 8, or nothing when all four are taken |
| Advisor.FirstEmpty | tic_tac_toe_frontend/src/App.js:59-61 | returns the lowest empty index, or nothing when the board is full |
| Advisor.PickMove | tic_tac_toe_frontend/src/App.js:30-64 | no move exactly when the board is full, else an empty cell; the lowest immediate win for the AI's mark if one exists, else the lowest cell where the human's mark would win, else 4 if empty, else the first empty corner in order 0, 2, 6, 8, else the lowest empty index |
| Advisor.WinBeforeBlock | tic_tac_toe_frontend/src/App.js:32-40 | on O O _ / X X _ / _ _ _ with O to move the pick is 2, the own win, not the block at 5 |
| Advisor.NoWinForLoneO | tic_tac_toe_frontend/src/App.js:32-40 | on X X _ / O _ _ / _ _ _ no cell is an immediate win for O |
| Advisor.BlockWhenNoWin | tic_tac_toe_frontend/src/App.js:42-50 | on X X _ / O _ _ / _ _ _ with O to move the pick is 2, blocking X |
| Advisor.OneMarkNoLine | tic_tac_toe_frontend/src/App.js:16-24 | a board holding a single mark has no complete line |
| Advisor.CentreOnEmptyBoard | tic_tac_toe_frontend/src/App.js:52 | on the empty board the pick is the centre, 4 |
| Controller.Winner | tic_tac_toe_frontend/src/App.js:158-161 | the recomputed winner: a reported mark owns a complete line, and a draw is reported only on a full board where neither mark has a line |
| Controller.IsAiTurn | tic_tac_toe_frontend/src/App.js:145 | on the AI's turn (AI mode, no result, O to move) the board is not full |
| Controller.Reset | tic_tac_toe_frontend/src/App.js:138-140 | the initial state has nine empty cells, X to move and no result |
| Controller.Move | tic_tac_toe_frontend/src/App.js:184-192 | a move on a decided game or a taken cell changes nothing; otherwise only cell idx changes, to the mark of the player to move, every other cell is kept, the turn flips once and the mode is kept |
| Controller.Click | tic_tac_toe_frontend/src/App.js:195-201 | in AI mode a click on O's turn or on a decided game changes nothing, and a click that changes the state writes X; in PvP mode a click is a move |
| Controller.AiStep | tic_tac_toe_frontend/src/App.js:164-176 | outside the AI's turn nothing changes; on the AI's turn the picked cell is empty, gets O, and X is next |
| Controller.Restart | tic_tac_toe_frontend/src/App.js:204-208 | restart keeps the mode and yields nine empty cells, X to move and no result |
| Controller.SetMode | tic_tac_toe_frontend/src/App.js:151-155 | selecting the current mode changes nothing; selecting the other mode switches to it with nine empty cells, X to move and no result |
| Controller.Step | tic_tac_toe_frontend/src/App.js:151-208 | a click, a restart or an AI move keeps the mode; only a mode selection changes it |
| Controller.ResetInvariant | tic_tac_toe_frontend/src/App.js:138-140 | the reset state is balanced and no mark has a complete line |
| Controller.MoveInvariant | tic_tac_toe_frontend/src/App.js:184-192 | a move keeps the balance X count minus O count in {0, 1} with X next exactly when they are equal, and never gives both marks a line |
| Controller.StepInvariant | tic_tac_toe_frontend/src/App.js:151-208 | every click, restart, mode selection and AI move keeps both invariants |
| Controller.RunInvariant | tic_tac_toe_frontend/src/App.js:151-208 | any sequence of events keeps both invariants |
| Controller.ReachableInvariant | tic_tac_toe_frontend/src/App.js:138-208 | every state reachable from a reset is balanced and has at most one winning mark |
| Controller.ReachableWinnerIsTheLineOwner | tic_tac_toe_frontend/src/App.js:158-161 | in every reachable state the winner is m exactly when m has a complete line |
| Controller.FrozenOnceDecided | tic_tac_toe_frontend/src/App.js:185 | once the game is won or drawn, clicks and AI moves leave the state unchanged |
| Controller.AiAlwaysMoves | tic_tac_toe_frontend/src/App.js:164-172 | on the AI's turn the AI adds exactly one O and no X |
| Controller.ClickInAiModeWritesX | tic_tac_toe_frontend/src/App.js:195-201 | in AI mode a click never adds an O |
| Controller.OpenBoardClick | tic_tac_toe_frontend/src/App.js:184-192 | in PvP mode a click on an empty cell of a board with no complete line writes the current mark there and flips the turn |
| Controller.TopRowOpening | tic_tac_toe_frontend/src/App.js:184-192 | from a reset, X@0, O@4, X@1 gives X X _ / _ O _ / _ _ _ with O to move |
| Controller.TopRowClose | tic_tac_toe_frontend/src/App.js:184-192 | from that board, O@8, X@2 gives X X X / _ O _ / _ _ O |
| Controller.TopRowScenario | tic_tac_toe_frontend/src/App.js:158-161 | the game X@0, O@4, X@1, O@8, X@2 ends with X the winner |

## Left out

- The components `ModeSelect`, `Status` and `Board`, the JSX and the inline styles
  (App.js:67-132, 220-326) are presentation only. The `disabled` flags of the cell
  buttons repeat the handlers' guards. The mode buttons are disabled by
  `winner !== null || cells.some(c => c)` (App.js:236), that is, as soon as any cell is
  filled, including after a win or a draw until Restart. In App.js a mode change can
  therefore only happen from the empty board with X to move. `SetMode` accepts a mode
  change in any state, so the model's reachable states include all of the source's, and
  the invariants proved for them (`ReachableInvariant`) carry over.
- The theme state, `toggleTheme` and the `data-theme` attribute (App.js:136, 147-149,
  179-181) are a DOM side effect with no bearing on the game, so theme toggling is not an
  event of the model.
- The `setTimeout` scheduling of the AI move, its cancellation and the random delay
  `450 + Math.random() * 250` (App.js:164-176) are timing, randomness and floating
  point. The AI move is the transition `AiStep`, taken against the current state. A
  timer that would have been cancelled corresponds to `AiStep` on a state that is not
  the AI's turn, which changes nothing.
- React's asynchronous state updates and the one-render lag before `winner` is
  recomputed (App.js:158-161) are not modelled. The winner is recomputed synchronously
  from the cells.
- Cell indices are the subset type `Index` (0..8). In App.js they come only from
  the nine board buttons and from `getAIMove`, so out-of-range indices never occur.

## Notes on the code

- Choosing the current mode leaves the board alone. The reset runs in an effect keyed on
  `mode` (App.js:151-155), and React runs it only when the value changes. `SetMode`
  with the current mode is the identity.
- One move can complete two lines of the same mark: X at 0 on `_ X X / X O O / X O O`
  completes row 0-1-2 and column 0-3-6 (`TwoLinesInOneMove`). What holds in every
  reachable state is that at most one mark has a complete line (`ReachableInvariant`),
  so the scanning order never changes which mark wins (`ReachableWinnerIsTheLineOwner`).
