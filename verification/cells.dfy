/** The 3x3 board: nine cells indexed 0..8 row by row, each empty or holding a mark. */
module Cells {

  /** The two marks a player writes, "X" and "O". */
  datatype Mark = X | O

  /** In App.js a cell is `null` (empty) or a mark string. */
  datatype Cell = Empty | Filled(mark: Mark)

  /** A valid cell index; the board buttons and the move picker only ever produce these. */
  type Index = i: int | 0 <= i < 9

  /** A board always has exactly nine cells (`Array(9)` in App.js). */
  type Board = b: seq<Cell> | |b| == 9
    witness [Empty, Empty, Empty, Empty, Empty, Empty, Empty, Empty, Empty]

  /** The other mark. */
  function Opponent(m: Mark): (r: Mark)
    ensures r != m
  {
    if m == X then O else X
  }

  /** `Array(9).fill(null)`: the board every new game starts from. */
  function EmptyBoard(): (b: Board)
    ensures forall i | 0 <= i < 9 :: b[i] == Empty
  {
    [Empty, Empty, Empty, Empty, Empty, Empty, Empty, Empty, Empty]
  }

  /** Every cell is non-empty (`cells.every(cell => cell)`). */
  predicate Full(b: Board)
  {
    forall i | 0 <= i < 9 :: b[i] != Empty
  }

  /** Number of cells of `s` equal to `c`. */
  function Count(s: seq<Cell>, c: Cell): (n: nat)
    ensures n <= |s|
    ensures n == 0 <==> c !in s
  {
    if |s| == 0 then 0
    else (if s[0] == c then 1 else 0) + Count(s[1..], c)
  }

  /** Writing a mark into an empty cell adds one occurrence of that mark and leaves
      the number of every other non-empty value unchanged. */
  lemma {:induction false} CountAfterWrite(s: seq<Cell>, i: int, m: Mark, d: Cell)
    requires 0 <= i < |s|
    requires s[i] == Empty
    requires d != Empty
    ensures Count(s[i := Filled(m)], d) == Count(s, d) + (if d == Filled(m) then 1 else 0)
  {
    var t := s[i := Filled(m)];
    if i == 0 {
      assert t[1..] == s[1..];
    } else {
      assert t[1..] == s[1..][i - 1 := Filled(m)];
      CountAfterWrite(s[1..], i - 1, m, d);
    }
  }
}
