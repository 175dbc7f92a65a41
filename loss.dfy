/**
 * The end-of-game test run after each new tile: the board is lost when none
 * of the four moves, tried in the order Up, Left, Down, Right on a copy of
 * the board, would change it. The trial moves are given the game's running
 * score, so a trial that changes the copy also adds its merges to the real
 * score; LossCheck models that as written and CheckLost the evidently
 * intended test that leaves the score alone.
 */
module Loss {
  import opened Line
  import opened LineProperties
  import opened Grid
  import opened GameStep
  import opened BoardProperties

  /** The i-th of the four trial moves, in the order the game tries them: Up, Left, Down, Right. */
  function TrialMove(i: nat): (d: Direction)
    requires i < 4
    ensures d == Right <==> i == 3
  {
    if i == 0 then Up else if i == 1 then Left else if i == 2 then Down else Right
  }

  /** No move changes the board. */
  ghost predicate GameOver(b: seq<nat>)
    requires |b| == 16
  {
    forall j :: 0 <= j < 4 ==> MoveBoard(TrialMove(j), b) == b
  }

  /** The board is lost exactly when Up, Left, Down and Right each leave it unchanged. */
  lemma GameOverMoves(b: seq<nat>)
    requires |b| == 16
    ensures GameOver(b) <==>
              && MoveBoard(Up, b) == b && MoveBoard(Left, b) == b
              && MoveBoard(Down, b) == b && MoveBoard(Right, b) == b
  {
    assert MoveBoard(TrialMove(0), b) == MoveBoard(Up, b);
    assert MoveBoard(TrialMove(1), b) == MoveBoard(Left, b);
    assert MoveBoard(TrialMove(2), b) == MoveBoard(Down, b);
    assert MoveBoard(TrialMove(3), b) == MoveBoard(Right, b);
  }

  /**
   * The score the trials from the i-th on add: the gain of the first of
   * them that changes the board; nothing when none does.
   */
  function TrialGainFrom(b: seq<nat>, i: nat): nat
    requires |b| == 16 && i <= 4
    decreases 4 - i
  {
    if i == 4 then 0
    else if MoveBoard(TrialMove(i), b) != b then BoardGain(TrialMove(i), b)
    else TrialGainFrom(b, i + 1)
  }

  /** The score the whole test adds. */
  function TrialGain(b: seq<nat>): nat
    requires |b| == 16
  {
    TrialGainFrom(b, 0)
  }

  /** Trial i on a copy of b: the copy afterwards and the score it returns. */
  method Trial(field: array<nat>, i: nat, score: nat) returns (test: array<nat>, newScore: nat)
    requires field.Length == 16 && i < 4
    ensures test.Length == 16
    ensures test[..] == MoveBoard(TrialMove(i), field[..])
    ensures newScore == score + BoardGain(TrialMove(i), field[..])
  {
    test := new nat[16](p requires 0 <= p < 16 reads field => field[p]);
    assert test[..] == field[..];
    var result;
    result, newScore := DoGameStep(TrialMove(i), test, score);
  }

  /**
   * Trial i followed by the comparison of the copy with the board: whether
   * the move changes b, and the score the trial returns, which grows only
   * when it does.
   */
  method TrialChanges(field: array<nat>, i: nat, score: nat, ghost b: seq<nat>) returns (changed: bool, newScore: nat)
    requires field.Length == 16 && i < 4 && field[..] == b
    ensures changed == (MoveBoard(TrialMove(i), b) != b)
    ensures newScore == score + (if changed then BoardGain(TrialMove(i), b) else 0)
  {
    var test;
    test, newScore := Trial(field, i, score);
    changed := test[..] != field[..];
    if !changed {
      NoChangeNoGain(TrialMove(i), b);
    }
  }

  /**
   * The test as written: each trial runs on a fresh copy of the board but
   * with the real score; the first trial that changes its copy ends the test
   * (the game goes on), and the board is lost when Right, the last trial,
   * does not change it either.
   */
  method LossCheck(field: array<nat>, score: nat) returns (lost: bool, newScore: nat)
    requires field.Length == 16
    ensures lost == GameOver(field[..])
    ensures newScore == score + TrialGain(field[..])
  {
    ghost var b := field[..];
    lost := false;
    newScore := score;
    for i := 0 to 4
      invariant forall j :: 0 <= j < i ==> MoveBoard(TrialMove(j), b) == b
      invariant TrialGainFrom(b, i) == TrialGain(b)
      invariant lost == (i == 4)
      invariant newScore == score
    {
      var changed;
      changed, newScore := TrialChanges(field, i, newScore, b);
      if changed {
        return;
      }
      if TrialMove(i) == Right {
        lost := true;
      }
    }
  }

  /** The intended test: the trials run with a scratch score and the game's score is not touched. */
  method CheckLost(field: array<nat>) returns (lost: bool)
    requires field.Length == 16
    ensures lost == GameOver(field[..])
  {
    ghost var b := field[..];
    lost := false;
    for i := 0 to 4
      invariant forall j :: 0 <= j < i ==> MoveBoard(TrialMove(j), b) == b
      invariant lost == (i == 4)
    {
      var changed, scratch := TrialChanges(field, i, 0, b);
      if changed {
        return;
      }
      if TrialMove(i) == Right {
        lost := true;
      }
    }
  }

  /** A line of four empty cells scores nothing when slid. */
  lemma EmptyLineGain(s: seq<nat>)
    requires forall i :: 0 <= i < |s| ==> s[i] == 0
    ensures Gain(s) == 0
  {
    CompactOfEmpty(s);
  }

  /** The line of board b along column k for Up, when b holds tiles only in column 0. */
  lemma ExampleColumn(b: seq<nat>, k: nat)
    requires |b| == 16 && k < 4
    requires forall p :: 0 <= p < 16 && p % 4 != 0 ==> b[p] == 0
    ensures k == 0 ==> LineAt(b, Up, k) == [b[0], b[4], b[8], b[12]]
    ensures k != 0 ==> Gain(LineAt(b, Up, k)) == 0
  {
    var pos := Positions(Up, k);
    if k == 0 {
      assert pos[0] == 0 && pos[1] == 4 && pos[2] == 8 && pos[3] == 12;
    } else {
      EmptyLineGain(LineAt(b, Up, k));
    }
  }

  /** Two equal tiles at the front of a line merge into the front cell. */
  lemma ExamplePairSlide()
    ensures Slide([2, 2, 0, 0]) == [4, 0, 0, 0] && Gain([2, 2, 0, 0]) == 4
  {
    var s: seq<nat> := [2, 2, 0, 0];
    CompactAt(s, 0); CompactAt(s, 1); CompactAt(s, 2); CompactAt(s, 3);
    assert s[4..] == [];
    assert Compact(s) == [2, 2];
    assert [2, 2][2..] == [];
  }

  /** Up on a board whose only tiles are two 2s at the top of column 0 merges them, for 4. */
  lemma ExampleUpMove(b: seq<nat>)
    requires |b| == 16 && b[0] == 2 && b[4] == 2 && b[8] == 0 && b[12] == 0
    requires forall p :: 0 <= p < 16 && p % 4 != 0 ==> b[p] == 0
    ensures MoveBoard(Up, b) != b && BoardGain(Up, b) == 4
  {
    ExampleColumn(b, 0);
    ExampleColumn(b, 1);
    ExampleColumn(b, 2);
    ExampleColumn(b, 3);
    assert LineAt(b, Up, 0) == [2, 2, 0, 0];
    ExamplePairSlide();
    assert MoveBoard(Up, b)[0] == 4;
    BoardGainLines(Up, b);
  }

  /**
   * With a 2 on top of a 2 in the first column and nothing else, the board
   * is not lost, and the test, through its Up trial, adds 4 to the score.
   */
  lemma LossCheckInflatesScore()
    ensures var b: seq<nat> := [2, 0, 0, 0, 2, 0, 0, 0, 0, 0, 0, 0, 0, 0, 0, 0];
            !GameOver(b) && TrialGain(b) == 4
  {
    var b: seq<nat> := seq(16, p requires 0 <= p < 16 => if p == 0 || p == 4 then 2 else 0);
    assert b == [2, 0, 0, 0, 2, 0, 0, 0, 0, 0, 0, 0, 0, 0, 0, 0];
    ExampleUpMove(b);
    GameOverMoves(b);
  }

  // ---------------------------------------------------------------------
  // When is a board lost?

  /** Every cell is empty. */
  ghost predicate EmptyBoard(b: seq<nat>)
    requires |b| == 16
  {
    forall p :: 0 <= p < 16 ==> b[p] == 0
  }

  /** Every cell holds a tile. */
  ghost predicate FullBoard(b: seq<nat>)
    requires |b| == 16
  {
    forall p :: 0 <= p < 16 ==> b[p] != 0
  }

  /** No two horizontally or vertically adjacent cells hold the same value. */
  ghost predicate NoEqualAdjacent(b: seq<nat>)
    requires |b| == 16
  {
    && (forall x, y :: 0 <= x < 3 && 0 <= y < 4 ==> b[Index(x, y)] != b[Index(x + 1, y)])
    && (forall x, y :: 0 <= x < 4 && 0 <= y < 3 ==> b[Index(x, y)] != b[Index(x, y + 1)])
  }

  /** All lines of all four directions are settled. */
  ghost predicate AllSettled(b: seq<nat>)
    requires |b| == 16
  {
    forall k :: 0 <= k < 4 ==>
      && Settled(LineAt(b, Up, k)) && Settled(LineAt(b, Left, k))
      && Settled(LineAt(b, Down, k)) && Settled(LineAt(b, Right, k))
  }

  /** A line compacted toward both ends that has an empty cell is empty. */
  lemma LineEmptyBothWays(s: seq<nat>, t: seq<nat>, i: nat)
    requires |s| == |t| && i < |s| && s[i] == 0
    requires forall j :: 0 <= j < |t| ==> t[j] == s[|s| - 1 - j]
    requires Compacted(s) && Compacted(t)
    ensures forall j :: 0 <= j < |s| ==> s[j] == 0
  {
    forall j | 0 <= j < |s| ensures s[j] == 0 {
      if j < i {
        assert t[|s| - 1 - i] == 0;
        assert t[|s| - 1 - j] == 0;
      }
    }
  }

  /** On a board where every line is settled, one empty cell means all cells are empty. */
  lemma EmptySpreads(b: seq<nat>, q: nat)
    requires |b| == 16 && q < 16 && b[q] == 0
    requires AllSettled(b)
    ensures EmptyBoard(b)
  {
    var x, y := q % 4, q / 4;
    var row := LineAt(b, Left, y);
    assert row[x] == 0 by { assert Index(x, y) == q; }
    LineEmptyBothWays(row, LineAt(b, Right, y), x);
    forall c, j | 0 <= c < 4 && 0 <= j < 4 ensures b[Index(c, j)] == 0 {
      var column := LineAt(b, Up, c);
      assert column[y] == row[c];
      LineEmptyBothWays(column, LineAt(b, Down, c), y);
      assert column[j] == b[Index(c, j)];
    }
    forall p | 0 <= p < 16 ensures b[p] == 0 {
      assert p == Index(p % 4, p / 4);
    }
  }

  /** On a full board with no equal neighbours, every line is settled. */
  lemma FullSettled(b: seq<nat>)
    requires |b| == 16 && FullBoard(b) && NoEqualAdjacent(b)
    ensures AllSettled(b)
  {
    forall d: Direction, k | 0 <= k < 4 ensures Settled(LineAt(b, d, k)) {
      var s := LineAt(b, d, k);
      forall i | 0 < i < 4 ensures s[i - 1] != s[i] {
        match d
        case Up => assert Index(k, i - 1) + 4 == Index(k, i);
        case Left => assert Index(i - 1, k) + 1 == Index(i, k);
        case Down => assert Index(k, 3 - i) + 4 == Index(k, 4 - i);
        case Right => assert Index(3 - i, k) + 1 == Index(4 - i, k);
      }
    }
  }

  /** On an empty board every line is settled. */
  lemma EmptySettled(b: seq<nat>)
    requires |b| == 16 && EmptyBoard(b)
    ensures AllSettled(b)
  {
    forall d: Direction, k | 0 <= k < 4 ensures Settled(LineAt(b, d, k)) {
      var s := LineAt(b, d, k);
      assert forall i :: 0 <= i < 4 ==> s[i] == 0;
    }
  }

  /** The board is lost exactly when every line of every direction is settled. */
  lemma GameOverSettled(b: seq<nat>)
    requires |b| == 16
    ensures GameOver(b) <==> AllSettled(b)
  {
    MoveUnchangedIff(Up, b);
    MoveUnchangedIff(Left, b);
    MoveUnchangedIff(Down, b);
    MoveUnchangedIff(Right, b);
    GameOverMoves(b);
  }

  /** A board with a tile on which every line is settled is full with no equal neighbours. */
  lemma SettledFull(b: seq<nat>)
    requires |b| == 16 && AllSettled(b) && !EmptyBoard(b)
    ensures FullBoard(b) && NoEqualAdjacent(b)
  {
    forall q | 0 <= q < 16 ensures b[q] != 0 {
      if b[q] == 0 {
        EmptySpreads(b, q);
      }
    }
    forall x, y | 0 <= x < 3 && 0 <= y < 4 ensures b[Index(x, y)] != b[Index(x + 1, y)] {
      var pos := Positions(Left, y);
      var s := LineAt(b, Left, y);
      assert pos[x] == Index(x, y) && pos[x + 1] == Index(x + 1, y);
      assert Settled(s) && s[x + 1] != 0;
      assert s[x] == b[Index(x, y)] && s[x + 1] == b[Index(x + 1, y)];
    }
    forall x, y | 0 <= x < 4 && 0 <= y < 3 ensures b[Index(x, y)] != b[Index(x, y + 1)] {
      var pos := Positions(Up, x);
      var s := LineAt(b, Up, x);
      assert pos[y] == Index(x, y) && pos[y + 1] == Index(x, y + 1);
      assert Settled(s) && s[y + 1] != 0;
      assert s[y] == b[Index(x, y)] && s[y + 1] == b[Index(x, y + 1)];
    }
  }

  /**
   * A board is lost exactly when it is empty, or full with no two equal
   * tiles side by side or one above the other.
   */
  lemma GameOverIff(b: seq<nat>)
    requires |b| == 16
    ensures GameOver(b) <==> EmptyBoard(b) || (FullBoard(b) && NoEqualAdjacent(b))
  {
    GameOverSettled(b);
    if EmptyBoard(b) {
      EmptySettled(b);
    } else if FullBoard(b) && NoEqualAdjacent(b) {
      FullSettled(b);
    } else if AllSettled(b) {
      SettledFull(b);
    }
  }
}
