/**
 * The `joinor` list formatters.  The Tic-Tac-Toe one (identical in
 * tic_tac_toe-oop.rb and tic_tac_toe-procedural.rb) writes "1, 2, or 3",
 * with a comma before the joining word; the Twenty-One one
 * (twenty_one-procedural.rb) writes "a, b and c", without it.  Both walk
 * the list once, compare each element with the last one by value, and
 * keep a separator that may switch to a single space along the way.
 */
module ListFormat {

  /** `Integer#to_s` for the digits of a natural number. */
  function NatToString(n: nat): (s: string)
    ensures |s| >= 1 && forall j :: 0 <= j < |s| ==> '0' <= s[j] <= '9'
    decreases n
  {
    var digit := ['0' + (n % 10) as char];
    if n < 10 then digit else NatToString(n / 10) + digit
  }

  /** `Integer#to_s`: a minus sign before the digits of a negative number. */
  function IntToString(n: int): string {
    if n < 0 then "-" + NatToString(-n) else NatToString(n)
  }

  /** The form of `to_s`: an optional minus sign, for negatives only, then digits. */
  lemma IntToStringForm(n: int)
    ensures |IntToString(n)| >= 1 && (IntToString(n)[0] == '-' <==> n < 0)
    ensures forall j :: (if n < 0 then 1 else 0) <= j < |IntToString(n)| ==> '0' <= IntToString(n)[j] <= '9'
  {
  }

  /** The elements joined by `sep`, with no separator at either end. */
  function Joined(items: seq<string>, sep: string): string {
    if |items| == 0 then ""
    else if |items| == 1 then items[0]
    else items[0] + sep + Joined(items[1..], sep)
  }

  predicate Distinct<T(==)>(s: seq<T>) {
    forall i, j :: 0 <= i < j < |s| ==> s[i] != s[j]
  }

  /**
   * One step of the Tic-Tac-Toe `joinor` reduce and the rest of the walk
   * from element `i` on: `sentence` and `separator` are the values the
   * block has built up so far.
   */
  function OrJoinFrom(arr: seq<int>, i: nat, sentence: string, separator: string, word: string): string
    requires i <= |arr|
    decreases |arr| - i
  {
    if i == |arr| then sentence
    else
      var last := arr[|arr| - 1];
      var num := arr[i];
      var s1 := if num == last && |arr| != 1 then sentence + word + " " else sentence;
      var s2 := s1 + IntToString(num);
      var sep := if |arr| == 2 then " " else separator;
      var s3 := if num == last then s2 else s2 + sep;
      OrJoinFrom(arr, i + 1, s3, sep, word)
  }

  /** Tic-Tac-Toe `joinor(arr, separator, joining_word)`. */
  function JoinOr(arr: seq<int>, separator: string, word: string): string {
    OrJoinFrom(arr, 0, "", separator, word)
  }

  /** The decimal forms of the elements, in order. */
  function Shown(arr: seq<int>): (s: seq<string>)
    ensures |s| == |arr| && forall j :: 0 <= j < |arr| ==> s[j] == IntToString(arr[j])
  {
    seq(|arr|, j requires 0 <= j < |arr| => IntToString(arr[j]))
  }

  /** The walk over the elements before the last of three or more. */
  lemma {:induction false} OrJoinMiddle(arr: seq<int>, i: nat, sentence: string, separator: string, word: string)
    requires Distinct(arr) && |arr| >= 3 && i <= |arr| - 1
    ensures OrJoinFrom(arr, i, sentence, separator, word) ==
      sentence + Joined(Shown(arr)[i..|arr| - 1], separator) +
      (if i < |arr| - 1 then separator else "") + word + " " + IntToString(arr[|arr| - 1])
    decreases |arr| - i
  {
    var n := |arr|;
    var last := IntToString(arr[n - 1]);
    var tail := Shown(arr)[i..n - 1];
    if i == n - 1 {
      assert tail == [];
      assert OrJoinFrom(arr, i, sentence, separator, word) == OrJoinFrom(arr, n, sentence + word + " " + last, separator, word);
    } else {
      var head := IntToString(arr[i]);
      assert arr[i] != arr[n - 1];
      var next := sentence + head + separator;
      assert OrJoinFrom(arr, i, sentence, separator, word) == OrJoinFrom(arr, i + 1, next, separator, word);
      OrJoinMiddle(arr, i + 1, next, separator, word);
      var rest := Shown(arr)[i + 1..n - 1];
      assert tail == [head] + rest;
      OrJoinCons(sentence, head, separator, rest, tail, i + 1 < n - 1, word, last);
    }
  }

  /** Moving the element at `i` from the sentence built so far into the joined middle. */
  lemma OrJoinCons(sentence: string, head: string, separator: string, rest: seq<string>, tail: seq<string>,
                   more: bool, word: string, last: string)
    requires tail == [head] + rest && (more <==> |rest| > 0)
    ensures sentence + head + separator + Joined(rest, separator) + (if more then separator else "") + word + " " + last ==
      sentence + Joined(tail, separator) + separator + word + " " + last
  {
    var middle := Joined(rest, separator);
    if more {
      assert tail[1..] == rest;
      assert Joined(tail, separator) == head + separator + middle;
      AppendAssoc(sentence, head, separator, middle);
    } else {
      assert Joined(tail, separator) == head && middle == "";
      AppendEmpty(sentence + head + separator);
      AppendEmpty(sentence + head + separator + middle);
    }
  }

  lemma AppendAssoc(a: string, b: string, c: string, d: string)
    ensures a + b + c + d == a + (b + c + d)
  {
  }

  lemma AppendEmpty(a: string)
    ensures a + "" == a
  {
  }

  lemma EmptyAppend(a: string)
    ensures "" + a == a
  {
  }

  /**
   * For distinct elements the Tic-Tac-Toe `joinor` gives "a" for one,
   * "a or b" for two, and "a, b, or c" for three or more: the separator
   * comes before the joining word as well.
   */
  lemma JoinOrShape(arr: seq<int>, separator: string, word: string)
    requires Distinct(arr)
    ensures |arr| == 0 ==> JoinOr(arr, separator, word) == ""
    ensures |arr| == 1 ==> JoinOr(arr, separator, word) == IntToString(arr[0])
    ensures |arr| == 2 ==>
      JoinOr(arr, separator, word) == IntToString(arr[0]) + " " + word + " " + IntToString(arr[1])
    ensures |arr| >= 3 ==>
      JoinOr(arr, separator, word) ==
        Joined(Shown(arr)[..|arr| - 1], separator) + separator + word + " " + IntToString(arr[|arr| - 1])
  {
    if |arr| == 1 {
      OrJoinSingle(arr, separator, word);
    } else if |arr| == 2 {
      OrJoinPair(arr, separator, word);
    } else if |arr| >= 3 {
      OrJoinMany(arr, separator, word);
    }
  }

  lemma OrJoinSingle(arr: seq<int>, separator: string, word: string)
    requires |arr| == 1
    ensures JoinOr(arr, separator, word) == IntToString(arr[0])
  {
    assert JoinOr(arr, separator, word) == OrJoinFrom(arr, 1, "" + IntToString(arr[0]), separator, word);
    EmptyAppend(IntToString(arr[0]));
  }

  lemma OrJoinMany(arr: seq<int>, separator: string, word: string)
    requires Distinct(arr) && |arr| >= 3
    ensures JoinOr(arr, separator, word) ==
      Joined(Shown(arr)[..|arr| - 1], separator) + separator + word + " " + IntToString(arr[|arr| - 1])
  {
    OrJoinMiddle(arr, 0, "", separator, word);
    assert Shown(arr)[0..|arr| - 1] == Shown(arr)[..|arr| - 1];
    EmptyAppend(Joined(Shown(arr)[..|arr| - 1], separator));
  }

  lemma OrJoinPair(arr: seq<int>, separator: string, word: string)
    requires |arr| == 2 && arr[0] != arr[1]
    ensures JoinOr(arr, separator, word) == IntToString(arr[0]) + " " + word + " " + IntToString(arr[1])
  {
    var first := IntToString(arr[0]) + " ";
    assert "" + IntToString(arr[0]) + " " == first;
    assert JoinOr(arr, separator, word) == OrJoinFrom(arr, 1, first, " ", word);
    assert OrJoinFrom(arr, 1, first, " ", word) == OrJoinFrom(arr, 2, first + word + " " + IntToString(arr[1]), " ", word);
  }

  /** The three prompts the Tic-Tac-Toe games print with the default arguments. */
  lemma JoinOrExamples()
    ensures JoinOr([1], ", ", "or") == "1"
    ensures JoinOr([1, 2], ", ", "or") == "1 or 2"
    ensures JoinOr([1, 2, 3], ", ", "or") == "1, 2, or 3"
  {
    assert IntToString(1) == "1" && IntToString(2) == "2";
    OrJoinSingle([1], ", ", "or");
    OrJoinPair([1, 2], ", ", "or");
    JoinOrThree();
  }

  lemma JoinOrThree()
    ensures JoinOr([1, 2, 3], ", ", "or") == "1, 2, or 3"
  {
    assert IntToString(1) == "1" && IntToString(2) == "2" && IntToString(3) == "3";
    OrJoinMany([1, 2, 3], ", ", "or");
    var shown := Shown([1, 2, 3])[..2];
    assert shown == ["1", "2"];
    assert Joined(shown, ", ") == "1" + ", " + Joined(["2"], ", ");
  }

  /**
   * One step of the Twenty-One `joinor` reduce and the rest of the walk:
   * the separator also switches to a space at the element equal to the
   * second-to-last one.
   */
  function AndJoinFrom(arr: seq<string>, i: nat, sentence: string, separator: string, word: string): string
    requires i <= |arr|
    decreases |arr| - i
  {
    if i == |arr| then sentence
    else
      var last := arr[|arr| - 1];
      var val := arr[i];
      var s1 := if val == last && |arr| != 1 then sentence + word + " " else sentence;
      var s2 := s1 + val;
      var sep := if |arr| == 2 || (|arr| >= 2 && val == arr[|arr| - 2]) then " " else separator;
      var s3 := if val == last then s2 else s2 + sep;
      AndJoinFrom(arr, i + 1, s3, sep, word)
  }

  /**
   * Twenty-One `joinor(arr, separator, joining_word)`, as the loop the
   * reduce performs.  In Ruby `arr[arr.size - 2]` of a one-element list is
   * that element, so the comparison only matters from two elements on.
   */
  method JoinAnd(arr: seq<string>, separator: string, word: string) returns (sentence: string)
    ensures sentence == AndJoinFrom(arr, 0, "", separator, word)
    ensures Distinct(arr) && |arr| >= 3 ==>
      sentence == Joined(arr[..|arr| - 1], separator) + " " + word + " " + arr[|arr| - 1]
    ensures Distinct(arr) && |arr| == 2 ==> sentence == arr[0] + " " + word + " " + arr[1]
    ensures |arr| == 1 ==> sentence == arr[0]
  {
    sentence := "";
    var sep := separator;
    var i := 0;
    while i < |arr|
      invariant 0 <= i <= |arr|
      invariant AndJoinFrom(arr, i, sentence, sep, word) == AndJoinFrom(arr, 0, "", separator, word)
    {
      var val := arr[i];
      if val == arr[|arr| - 1] && |arr| != 1 {
        sentence := sentence + word + " ";
      }
      sentence := sentence + val;
      if |arr| == 2 || (|arr| >= 2 && val == arr[|arr| - 2]) {
        sep := " ";
      }
      if val != arr[|arr| - 1] {
        sentence := sentence + sep;
      }
      i := i + 1;
    }
    if Distinct(arr) && |arr| >= 3 {
      AndJoinMiddle(arr, 0, "", separator, word);
      assert arr[0..|arr| - 1] == arr[..|arr| - 1];
    }
    if Distinct(arr) && |arr| == 2 {
      assert arr[0] != arr[1];
      var first := arr[0] + " ";
      assert "" + arr[0] + " " == first;
      assert AndJoinFrom(arr, 0, "", separator, word) == AndJoinFrom(arr, 1, first, " ", word);
      assert AndJoinFrom(arr, 1, first, " ", word) == AndJoinFrom(arr, 2, first + word + " " + arr[1], " ", word);
    }
  }

  /** The walk over the elements before the last of three or more. */
  lemma {:induction false} AndJoinMiddle(arr: seq<string>, i: nat, sentence: string, separator: string, word: string)
    requires Distinct(arr) && |arr| >= 3 && i <= |arr| - 2
    ensures AndJoinFrom(arr, i, sentence, separator, word) ==
      sentence + Joined(arr[i..|arr| - 1], separator) + " " + word + " " + arr[|arr| - 1]
    decreases |arr| - i
  {
    var n := |arr|;
    var tail := arr[i..n - 1];
    assert arr[i] != arr[n - 1];
    if i == n - 2 {
      assert tail == [arr[n - 2]];
      assert AndJoinFrom(arr, i, sentence, separator, word) ==
        AndJoinFrom(arr, n - 1, sentence + arr[n - 2] + " ", " ", word);
    } else {
      assert arr[i] != arr[n - 2];
      var next := sentence + arr[i] + separator;
      assert AndJoinFrom(arr, i, sentence, separator, word) == AndJoinFrom(arr, i + 1, next, separator, word);
      AndJoinMiddle(arr, i + 1, next, separator, word);
      var rest := arr[i + 1..n - 1];
      assert tail[0] == arr[i] && tail[1..] == rest && |tail| >= 2;
      assert Joined(tail, separator) == arr[i] + separator + Joined(rest, separator);
    }
  }

  /** The card lists the Twenty-One game prints, for one, two and three cards. */
  method JoinAndExamples()
  {
    var one := JoinAnd(["a"], ", ", "and");
    assert one == "a";
    var two := JoinAnd(["a", "b"], ", ", "and");
    assert two == "a and b";
    var three := JoinAnd(["a", "b", "c"], ", ", "and");
    assert ["a", "b", "c"][..2] == ["a", "b"];
    assert three == "a, b and c";
  }
}
