/**
 * The board both Tic-Tac-Toe scripts lay out alike (each spells out the
 * same `WINNING_LINES` and keys its squares 1 to 9): the eight winning
 * lines, the keys, the three markers of a line, and the ascending list of
 * the keys holding a given marker that `unmarked_keys` and
 * `empty_squares` compute.  The marker type is a parameter: a character
 * in the class-based game, a string in the procedural one.
 */
module TicTacToeBoard {

  /** One winning line: three keys of the board. */
  datatype Line = Line(a: int, b: int, c: int)

  /** `WINNING_LINES` of both scripts: three rows, three columns, two diagonals. */
  const WinningLines: seq<Line> :=
    [Line(1, 2, 3), Line(4, 5, 6), Line(7, 8, 9),
     Line(1, 4, 7), Line(2, 5, 8), Line(3, 6, 9),
     Line(1, 5, 9), Line(3, 5, 7)]

  predicate IsKey(k: int) {
    1 <= k <= 9
  }

  /** The markers of the board: one per key 1 to 9 and nothing else. */
  ghost predicate Complete<M>(squares: map<int, M>) {
    forall k :: k in squares <==> IsKey(k)
  }

  predicate OnLine(k: int, line: Line) {
    k == line.a || k == line.b || k == line.c
  }

  /** Three different keys of the board. */
  predicate OnBoard(line: Line) {
    IsKey(line.a) && IsKey(line.b) && IsKey(line.c) &&
    line.a != line.b && line.b != line.c && line.a != line.c
  }

  lemma LinesAreOnTheBoard(i: int)
    requires 0 <= i < |WinningLines|
    ensures OnBoard(WinningLines[i])
  {
  }

  /** `squares.values_at(*line).map(&:marker)`. */
  function LineMarkers<M>(squares: map<int, M>, line: Line): (ms: seq<M>)
    requires Complete(squares) && OnBoard(line)
    ensures |ms| == 3
  {
    [squares[line.a], squares[line.b], squares[line.c]]
  }

  /** `Array#count` on the three markers of a line. */
  function Count<M(==)>(ms: seq<M>, m: M): (n: nat)
    requires |ms| == 3
    ensures n <= 3
  {
    (if ms[0] == m then 1 else 0) + (if ms[1] == m then 1 else 0) + (if ms[2] == m then 1 else 0)
  }

  /** The keys from `k` to 9 that hold `m`, in ascending order. */
  function KeysHolding<M(==)>(squares: map<int, M>, m: M, k: int): (keys: seq<int>)
    requires Complete(squares) && 1 <= k <= 10
    ensures forall x :: x in keys <==> k <= x <= 9 && squares[x] == m
    ensures forall j :: 0 <= j < |keys| ==> k <= keys[j]
    ensures forall a, b :: 0 <= a < b < |keys| ==> keys[a] < keys[b]
    decreases 10 - k
  {
    if k == 10 then []
    else if squares[k] == m then [k] + KeysHolding(squares, m, k + 1)
    else KeysHolding(squares, m, k + 1)
  }

  /** On a board holding `m` everywhere, the keys from `k` on holding `m` are all keys from `k` to 9. */
  lemma {:induction false} ResetKeys<M>(squares: map<int, M>, m: M, k: int)
    requires Complete(squares) && forall x :: IsKey(x) ==> squares[x] == m
    requires 1 <= k <= 10
    ensures |KeysHolding(squares, m, k)| == 10 - k
    ensures forall j :: 0 <= j < 10 - k ==> KeysHolding(squares, m, k)[j] == k + j
    decreases 10 - k
  {
    if k < 10 {
      ResetKeys(squares, m, k + 1);
      var rest := KeysHolding(squares, m, k + 1);
      assert KeysHolding(squares, m, k) == [k] + rest;
    }
  }

  lemma OneToNine(s: seq<int>)
    requires |s| == 9 && forall j :: 0 <= j < 9 ==> s[j] == j + 1
    ensures s == [1, 2, 3, 4, 5, 6, 7, 8, 9]
  {
    assert s[0] == 1 && s[1] == 2 && s[2] == 3 && s[3] == 4 && s[4] == 5;
    assert s[5] == 6 && s[6] == 7 && s[7] == 8 && s[8] == 9;
  }

  /** Overwriting one square that held `blank` leaves one fewer key holding `blank`. */
  lemma OneFewerHolding<M>(squares: map<int, M>, key: int, blank: M, marker: M)
    requires Complete(squares) && IsKey(key) && squares[key] == blank && marker != blank
    ensures |KeysHolding(squares[key := marker], blank, 1)| == |KeysHolding(squares, blank, 1)| - 1
  {
    var before, after := KeysHolding(squares, blank, 1), KeysHolding(squares[key := marker], blank, 1);
    assert (set x | x in after) == (set x | x in before) - {key};
    AscendingSetSize(before);
    AscendingSetSize(after);
  }

  /** An ascending sequence has as many elements as its set of elements. */
  lemma {:induction false} AscendingSetSize(s: seq<int>)
    requires forall a, b :: 0 <= a < b < |s| ==> s[a] < s[b]
    ensures |set x | x in s| == |s|
  {
    if s != [] {
      AscendingSetSize(s[1..]);
      assert (set x | x in s) == {s[0]} + (set x | x in s[1..]);
      assert s[0] !in s[1..];
    }
  }
}
