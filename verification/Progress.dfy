/** How an operation is shown to return: a number of steps left that its own steps bring down and that
    nobody else's steps raise. */
module Progress {

  /** How many of the moves are an operation's own. */
  function Own<M>(mine: M -> bool, moves: seq<M>): nat {
    if moves == [] then 0 else (if mine(moves[0]) then 1 else 0) + Own(mine, moves[1..])
  }

  /** left counts the steps left after some moves, 0 once the operation is over. */
  ghost predicate Shrinks<M(!new)>(left: seq<M> -> nat, mine: M -> bool) {
    forall moves, m :: left(moves) > 0 ==> left(moves + [m]) <= left(moves) - if mine(m) then 1 else 0
  }

  /** Then no continuation with that many own moves avoids its end. */
  lemma {:induction false} Returns<M(!new)>(left: seq<M> -> nat, mine: M -> bool, moves: seq<M>, more: seq<M>)
    requires Shrinks(left, mine) && Own(mine, more) >= left(moves)
    ensures exists k :: 0 <= k <= |more| && left(moves + more[..k]) == 0
    decreases |more|
  {
    if left(moves) == 0 {
      assert moves + more[..0] == moves;
    } else {
      Returns(left, mine, moves + [more[0]], more[1..]);
      var k :| 0 <= k <= |more[1..]| && left(moves + [more[0]] + more[1..][..k]) == 0;
      assert moves + [more[0]] + more[1..][..k] == moves + more[..k + 1];
    }
  }
}
