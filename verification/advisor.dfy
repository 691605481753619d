/** The heuristic move picker (`getAIMove`): win now, else block, else centre, else the first
    free corner in the order 0, 2, 6, 8, else the lowest empty cell. */
module Advisor {

  import opened Wrappers
  import opened Cells
  import opened Evaluator

  /** Cell `i` is empty and writing `m` there makes the evaluator report a win for `m`. */
  predicate WinsAt(b: Board, i: int, m: Mark)
  {
    0 <= i < 9 && b[i] == Empty && Evaluate(b[i := Filled(m)]) == Win(m)
  }

  /** Some empty cell wins immediately for `m`. */
  predicate CanWin(b: Board, m: Mark)
  {
    exists i | 0 <= i < 9 :: WinsAt(b, i, m)
  }

  /** `i` is the lowest cell that wins immediately for `m`. */
  predicate LowestWinning(b: Board, i: int, m: Mark)
  {
    WinsAt(b, i, m) && forall j | 0 <= j < i :: !WinsAt(b, j, m)
  }

  /** The corners in the order they are tried. */
  const Corners: seq<Index> := [0, 2, 6, 8]

  /** Some corner is empty. */
  predicate CornerFree(b: Board)
  {
    exists k | 0 <= k < |Corners| :: b[Corners[k]] == Empty
  }

  /** `i` is the first empty corner in the order of `Corners`. */
  predicate FirstFreeCorner(b: Board, i: int)
  {
    exists k | 0 <= k < |Corners| ::
      i == Corners[k] && b[i] == Empty && forall k' | 0 <= k' < k :: b[Corners[k']] != Empty
  }

  /** `i` is the lowest empty cell. */
  predicate LowestEmpty(b: Board, i: int)
  {
    0 <= i < 9 && b[i] == Empty && forall j | 0 <= j < i :: b[j] != Empty
  }

  /** The loops of rules 1 and 2 from index `i` on: the first empty cell at which `m`
      wins immediately. */
  function FirstWinning(b: Board, m: Mark, i: nat): (r: Option<Index>)
    requires i <= 9
    ensures r.Some? ==>
      i <= r.value && WinsAt(b, r.value, m) && forall j | i <= j < r.value :: !WinsAt(b, j, m)
    ensures r.None? ==> forall j | i <= j < 9 :: !WinsAt(b, j, m)
    decreases 9 - i
  {
    if i == 9 then None
    else if b[i] == Empty && Evaluate(b[i := Filled(m)]) == Win(m) then Some(i)
    else FirstWinning(b, m, i + 1)
  }

  /** The corner loop of rule 4 from position `k` of `Corners` on. */
  function FirstEmptyCorner(b: Board, k: nat): (r: Option<Index>)
    requires k <= |Corners|
    ensures r.Some? ==>
      exists n | k <= n < |Corners| ::
        r.value == Corners[n] && b[r.value] == Empty
        && forall n' | k <= n' < n :: b[Corners[n']] != Empty
    ensures r.None? ==> forall n | k <= n < |Corners| :: b[Corners[n]] != Empty
    decreases |Corners| - k
  {
    if k == |Corners| then None
    else if b[Corners[k]] == Empty then Some(Corners[k])
    else FirstEmptyCorner(b, k + 1)
  }

  /** The loop of rule 5 from index `i` on: the first empty cell. */
  function FirstEmpty(b: Board, i: nat): (r: Option<Index>)
    requires i <= 9
    ensures r.Some? ==>
      i <= r.value && b[r.value] == Empty && forall j | i <= j < r.value :: b[j] != Empty
    ensures r.None? ==> forall j | i <= j < 9 :: b[j] != Empty
    decreases 9 - i
  {
    if i == 9 then None
    else if b[i] == Empty then Some(i)
    else FirstEmpty(b, i + 1)
  }

  /** `getAIMove(cells, aiMark, humanMark)`. */
  function PickMove(b: Board, ai: Mark, human: Mark): (r: Option<Index>)
    ensures r.None? <==> Full(b)
    ensures r.Some? ==> b[r.value] == Empty
    ensures CanWin(b, ai) ==> r.Some? && LowestWinning(b, r.value, ai)
    ensures !CanWin(b, ai) && CanWin(b, human) ==> r.Some? && LowestWinning(b, r.value, human)
    ensures !CanWin(b, ai) && !CanWin(b, human) && b[4] == Empty ==> r == Some(4)
    ensures !CanWin(b, ai) && !CanWin(b, human) && b[4] != Empty && CornerFree(b) ==>
      r.Some? && FirstFreeCorner(b, r.value)
    ensures !CanWin(b, ai) && !CanWin(b, human) && b[4] != Empty && !CornerFree(b) && !Full(b) ==>
      r.Some? && LowestEmpty(b, r.value)
  {
    match FirstWinning(b, ai, 0)
    case Some(i) => Some(i)
    case None =>
      match FirstWinning(b, human, 0)
      case Some(i) => Some(i)
      case None =>
        if b[4] == Empty then Some(4)
        else
          match FirstEmptyCorner(b, 0)
          case Some(i) => Some(i)
          case None => FirstEmpty(b, 0)
  }

  /** Rule 1 beats rule 2: with O to move on O O _ / X X _ / _ _ _, O completes its row at 2
      rather than blocking X at 5. */
  lemma WinBeforeBlock()
    ensures PickMove([Filled(O), Filled(O), Empty,
                      Filled(X), Filled(X), Empty,
                      Empty, Empty, Empty], O, X) == Some(2)
  {
    var b: Board := [Filled(O), Filled(O), Empty,
                     Filled(X), Filled(X), Empty,
                     Empty, Empty, Empty];
    assert FirstWonLine(b[2 := Filled(O)], 0, O);
    EvaluateReportsFirstLine(b[2 := Filled(O)], 0, O);
    assert WinsAt(b, 2, O);
  }

  /** On X X _ / O _ _ / _ _ _ no cell wins for O: O has one mark there and a line
      through the new O needs two more. */
  lemma NoWinForLoneO(i: int)
    ensures !WinsAt([Filled(X), Filled(X), Empty,
                     Filled(O), Empty, Empty,
                     Empty, Empty, Empty], i, O)
  {
    var b: Board := [Filled(X), Filled(X), Empty,
                     Filled(O), Empty, Empty,
                     Empty, Empty, Empty];
    if WinsAt(b, i, O) {
      var j :| FirstWonLine(b[i := Filled(O)], j, O);
      LinesDistinct(j);
      assert forall p | 0 <= p < 9 && p != i && b[p] == Filled(O) :: p == 3;
      assert false;
    }
  }

  /** Rule 2: with O to move on X X _ / O _ _ / _ _ _, O blocks at 2. */
  lemma BlockWhenNoWin()
    ensures PickMove([Filled(X), Filled(X), Empty,
                      Filled(O), Empty, Empty,
                      Empty, Empty, Empty], O, X) == Some(2)
  {
    var b: Board := [Filled(X), Filled(X), Empty,
                     Filled(O), Empty, Empty,
                     Empty, Empty, Empty];
    assert FirstWonLine(b[2 := Filled(X)], 0, X);
    EvaluateReportsFirstLine(b[2 := Filled(X)], 0, X);
    assert WinsAt(b, 2, X);
    forall i | 0 <= i < 9
      ensures !WinsAt(b, i, O)
    {
      NoWinForLoneO(i);
    }
  }

  /** A board with a single mark on it has no complete line: the cells of a line are distinct. */
  lemma OneMarkNoLine(i: Index, m: Mark)
    ensures NoLineWon(EmptyBoard()[i := Filled(m)])
  {
    var t: Board := EmptyBoard()[i := Filled(m)];
    forall k | 0 <= k < |Lines|
      ensures !LineWon(t, k)
    {
      LinesDistinct(k);
      assert t[Lines[k].a] == Empty || t[Lines[k].b] == Empty;
    }
  }

  /** Rule 3: on the empty board the centre is chosen. */
  lemma CentreOnEmptyBoard(ai: Mark, human: Mark)
    ensures PickMove(EmptyBoard(), ai, human) == Some(4)
  {
    forall i: Index, m: Mark
      ensures !WinsAt(EmptyBoard(), i, m)
    {
      OneMarkNoLine(i, m);
    }
  }
}
