/** The win/draw evaluator (`calculateWinner`): scans the eight lines in a fixed order and
    reports the mark of the first complete one, else a draw on a full board, else nothing. */
module Evaluator {

  import opened Wrappers
  import opened Cells

  /** What `calculateWinner` returns: "X"/"O", 'draw', or `null` (no result yet). */
  datatype Outcome = Win(winner: Mark) | Draw | Undecided

  /** Three cell indices that form a row, column or diagonal. */
  datatype Line = Line(a: Index, b: Index, c: Index)

  /** The eight lines in scanning order: three rows, three columns, two diagonals. */
  const Lines: seq<Line> := [
    Line(0, 1, 2), Line(3, 4, 5), Line(6, 7, 8),
    Line(0, 3, 6), Line(1, 4, 7), Line(2, 5, 8),
    Line(0, 4, 8), Line(2, 4, 6)
  ]

  /** Line `k` holds three copies of mark `m`. */
  predicate Completes(b: Board, k: int, m: Mark)
  {
    0 <= k < |Lines| &&
    b[Lines[k].a] == Filled(m) && b[Lines[k].b] == Filled(m) && b[Lines[k].c] == Filled(m)
  }

  /** Line `k` is complete for one of the two marks. */
  predicate LineWon(b: Board, k: int)
  {
    Completes(b, k, X) || Completes(b, k, O)
  }

  /** Some line is complete for mark `m`. */
  predicate HasLine(b: Board, m: Mark)
  {
    exists k | 0 <= k < |Lines| :: Completes(b, k, m)
  }

  /** No line at all is complete. */
  predicate NoLineWon(b: Board)
  {
    forall k | 0 <= k < |Lines| :: !LineWon(b, k)
  }

  /** Line `j` is complete for `m` and every line scanned before it is not complete. */
  predicate FirstWonLine(b: Board, j: int, m: Mark)
  {
    Completes(b, j, m) && forall i | 0 <= i < j :: !LineWon(b, i)
  }

  /** The loop over `lines` in `calculateWinner` (App.js) from position `k` on, with its
      test "first cell non-empty and equal to the other two". */
  function Scan(b: Board, k: nat): (r: Option<Mark>)
    requires k <= |Lines|
    ensures r.None? <==> forall j | k <= j < |Lines| :: !LineWon(b, j)
    ensures r.Some? ==>
      exists j | k <= j < |Lines| ::
        Completes(b, j, r.value) && forall i | k <= i < j :: !LineWon(b, i)
    decreases |Lines| - k
  {
    if k == |Lines| then None
    else
      var l := Lines[k];
      if b[l.a] != Empty && b[l.a] == b[l.b] && b[l.a] == b[l.c] then
        var m := b[l.a].mark;
        assert Completes(b, k, m);
        assert LineWon(b, k) by { if m == X {} else {} }
        Some(m)
      else
        Scan(b, k + 1)
  }

  /** `calculateWinner`. */
  function Evaluate(b: Board): (r: Outcome)
    ensures r.Win? <==> !NoLineWon(b)
    ensures r.Win? ==> exists j :: FirstWonLine(b, j, r.winner)
    ensures r == Draw <==> NoLineWon(b) && Full(b)
    ensures r == Undecided <==> NoLineWon(b) && !Full(b)
  {
    match Scan(b, 0)
    case Some(m) =>
      var j :| 0 <= j < |Lines| && Completes(b, j, m) && forall i | 0 <= i < j :: !LineWon(b, i);
      assert FirstWonLine(b, j, m);
      Win(m)
    case None => if Full(b) then Draw else Undecided
  }

  /** The three cells of every line are distinct. */
  lemma LinesDistinct(k: int)
    requires 0 <= k < |Lines|
    ensures Lines[k].a != Lines[k].b && Lines[k].a != Lines[k].c && Lines[k].b != Lines[k].c
  {
  }

  /** The converse of Evaluate's first-line clause: the mark of the first complete line
      is the result, whatever lines of the other mark come later. */
  lemma EvaluateReportsFirstLine(b: Board, j: int, m: Mark)
    requires FirstWonLine(b, j, m)
    ensures Evaluate(b) == Win(m)
  {
    var r := Evaluate(b);
    assert LineWon(b, j);
    var j' :| FirstWonLine(b, j', r.winner);
    assert LineWon(b, j');
  }

  /** When at most one mark has a complete line (as in every reachable game), the scanning
      order is irrelevant: the result is a win for `m` exactly when `m` has a complete line. */
  lemma WinIffHasLine(b: Board, m: Mark)
    requires !(HasLine(b, X) && HasLine(b, O))
    ensures Evaluate(b) == Win(m) <==> HasLine(b, m)
  {
    if Evaluate(b) == Win(m) {
      var j :| FirstWonLine(b, j, m);
      assert Completes(b, j, m);
    }
    if HasLine(b, m) {
      var k :| 0 <= k < |Lines| && Completes(b, k, m);
      assert LineWon(b, k);
      var r := Evaluate(b);
      var j :| FirstWonLine(b, j, r.winner);
      assert Completes(b, j, r.winner);
    }
  }

  /** Placing mark `m` on a board with no complete line cannot complete a line for the
      other mark: every new line runs through the written cell, which now holds `m`. */
  lemma {:induction false} WriteCompletesOnlyOwnLines(b: Board, idx: Index, m: Mark)
    requires NoLineWon(b)
    ensures !HasLine(b[idx := Filled(m)], Opponent(m))
  {
    var b': Board := b[idx := Filled(m)];
    var o := Opponent(m);
    forall k | 0 <= k < |Lines|
      ensures !Completes(b', k, o)
    {
      if Completes(b', k, o) {
        var l := Lines[k];
        assert l.a != idx && l.b != idx && l.c != idx;
        assert Completes(b, k, o);
        assert LineWon(b, k);
      }
    }
  }

  /** On the full board X X X / O O O / X O X both marks have a line; the row of X is
      scanned before the row of O, so X is reported and the board is not a draw. */
  lemma EarlierLineWinsOnFullBoard()
    ensures HasLine([Filled(X), Filled(X), Filled(X),
                     Filled(O), Filled(O), Filled(O),
                     Filled(X), Filled(O), Filled(X)], O)
    ensures Evaluate([Filled(X), Filled(X), Filled(X),
                      Filled(O), Filled(O), Filled(O),
                      Filled(X), Filled(O), Filled(X)]) == Win(X)
  {
    var b: Board := [Filled(X), Filled(X), Filled(X),
                     Filled(O), Filled(O), Filled(O),
                     Filled(X), Filled(O), Filled(X)];
    assert Completes(b, 1, O);
    assert FirstWonLine(b, 0, X);
    EvaluateReportsFirstLine(b, 0, X);
  }

  /** One move can complete two lines of the same mark: X at 0 on _ X X / X O O / X O O
      closes row 0-1-2 and column 0-3-6 at once, and X is reported. */
  lemma TwoLinesInOneMove()
    ensures NoLineWon([Empty, Filled(X), Filled(X),
                       Filled(X), Filled(O), Filled(O),
                       Filled(X), Filled(O), Filled(O)])
    ensures Completes([Filled(X), Filled(X), Filled(X),
                       Filled(X), Filled(O), Filled(O),
                       Filled(X), Filled(O), Filled(O)], 0, X)
    ensures Completes([Filled(X), Filled(X), Filled(X),
                       Filled(X), Filled(O), Filled(O),
                       Filled(X), Filled(O), Filled(O)], 3, X)
    ensures Evaluate([Filled(X), Filled(X), Filled(X),
                      Filled(X), Filled(O), Filled(O),
                      Filled(X), Filled(O), Filled(O)]) == Win(X)
  {
    var b: Board := [Filled(X), Filled(X), Filled(X),
                     Filled(X), Filled(O), Filled(O),
                     Filled(X), Filled(O), Filled(O)];
    assert FirstWonLine(b, 0, X);
    EvaluateReportsFirstLine(b, 0, X);
  }

  /** A full board without a complete line is a draw: X O X / X O O / O X X. */
  lemma FullBoardWithoutLineIsDraw()
    ensures Evaluate([Filled(X), Filled(O), Filled(X),
                      Filled(X), Filled(O), Filled(O),
                      Filled(O), Filled(X), Filled(X)]) == Draw
  {
  }
}
