/**
 * What a move does to the whole board: each row or column is slid on its
 * own (rows reversed for Right, columns reversed for Down), the sum of the
 * tiles is kept, one tile disappears per merge, the score gained is 0 exactly
 * when nothing merges, a move that changes the board leaves an empty cell,
 * and a move leaves the board unchanged exactly when all its lines are
 * settled.
 */
module BoardProperties {
  import opened Line
  import opened LineProperties
  import opened Grid

  function Reverse(s: seq<nat>): (r: seq<nat>)
    ensures |r| == |s|
    ensures forall i :: 0 <= i < |s| ==> r[i] == s[|s| - 1 - i]
  {
    seq(|s|, i requires 0 <= i < |s| => s[|s| - 1 - i])
  }

  /** Row y of the board, left to right. */
  function Row(b: seq<nat>, y: nat): (s: seq<nat>)
    requires |b| == 16 && y < 4
  {
    b[y * 4..y * 4 + 4]
  }

  /** Column x of the board, top to bottom. */
  function Column(b: seq<nat>, x: nat): (s: seq<nat>)
    requires |b| == 16 && x < 4
  {
    [b[x], b[x + 4], b[x + 8], b[x + 12]]
  }

  /** Line k of a move holds exactly the cells of that line after the move, slid. */
  lemma MoveLines(d: Direction, b: seq<nat>, k: nat)
    requires |b| == 16 && k < 4
    ensures LineAt(MoveBoard(d, b), d, k) == Slide(LineAt(b, d, k))
    ensures Compacted(LineAt(MoveBoard(d, b), d, k))
  {
    SlideCompacted(LineAt(b, d, k));
  }

  lemma RowLines(b: seq<nat>, k: nat)
    requires |b| == 16 && k < 4
    ensures LineAt(b, Left, k) == Row(b, k)
    ensures LineAt(b, Right, k) == Reverse(Row(b, k))
  {
  }

  lemma ColumnLines(b: seq<nat>, k: nat)
    requires |b| == 16 && k < 4
    ensures LineAt(b, Up, k) == Column(b, k)
    ensures LineAt(b, Down, k) == Reverse(Column(b, k))
  {
  }

  /** Left slides each row; Right slides the reversed row and reverses the result back. */
  lemma MoveRows(b: seq<nat>, k: nat)
    requires |b| == 16 && k < 4
    ensures Row(MoveBoard(Left, b), k) == Slide(Row(b, k))
    ensures Row(MoveBoard(Right, b), k) == Reverse(Slide(Reverse(Row(b, k))))
  {
    RowLines(b, k);
    assert Row(MoveBoard(Left, b), k) == Slide(Row(b, k)) by {
      RowLines(MoveBoard(Left, b), k);
      MoveLines(Left, b, k);
    }
    var r := MoveBoard(Right, b);
    assert Row(r, k) == Reverse(Slide(Reverse(Row(b, k)))) by {
      RowLines(r, k);
      MoveLines(Right, b, k);
      assert Row(r, k) == Reverse(Reverse(Row(r, k)));
    }
  }

  /** Up slides each column; Down slides the reversed column and reverses the result back. */
  lemma MoveColumns(b: seq<nat>, k: nat)
    requires |b| == 16 && k < 4
    ensures Column(MoveBoard(Up, b), k) == Slide(Column(b, k))
    ensures Column(MoveBoard(Down, b), k) == Reverse(Slide(Reverse(Column(b, k))))
  {
    ColumnLines(b, k);
    assert Column(MoveBoard(Up, b), k) == Slide(Column(b, k)) by {
      ColumnLines(MoveBoard(Up, b), k);
      MoveLines(Up, b, k);
    }
    var r := MoveBoard(Down, b);
    assert Column(r, k) == Reverse(Slide(Reverse(Column(b, k)))) by {
      ColumnLines(r, k);
      MoveLines(Down, b, k);
      assert Column(r, k) == Reverse(Reverse(Column(r, k)));
    }
  }

  /** The score of a move is the sum of the scores of its four lines. */
  lemma BoardGainLines(d: Direction, b: seq<nat>)
    requires |b| == 16
    ensures BoardGain(d, b) == Gain(LineAt(b, d, 0)) + Gain(LineAt(b, d, 1)) + Gain(LineAt(b, d, 2)) + Gain(LineAt(b, d, 3))
  {
    assert GainUpTo(d, b, 1) == Gain(LineAt(b, d, 0));
    assert GainUpTo(d, b, 2) == GainUpTo(d, b, 1) + Gain(LineAt(b, d, 1));
    assert GainUpTo(d, b, 3) == GainUpTo(d, b, 2) + Gain(LineAt(b, d, 2));
  }

  // ---------------------------------------------------------------------
  // Totals over the board are totals over the lines of any direction.

  lemma SumCells(b: seq<nat>)
    requires |b| == 16
    ensures Sum(b) == b[0] + b[1] + b[2] + b[3] + b[4] + b[5] + b[6] + b[7]
                      + b[8] + b[9] + b[10] + b[11] + b[12] + b[13] + b[14] + b[15]
  {
    assert b == b[..4] + b[4..8] + b[8..12] + b[12..];
    SumConcat(b[..4] + b[4..8] + b[8..12], b[12..]);
    SumConcat(b[..4] + b[4..8], b[8..12]);
    SumConcat(b[..4], b[4..8]);
    Sum4(b[..4]);
    Sum4(b[4..8]);
    Sum4(b[8..12]);
    Sum4(b[12..]);
  }

  lemma RowSum(b: seq<nat>, k: nat)
    requires |b| == 16 && k < 4
    ensures Sum(Row(b, k)) == b[4 * k] + b[4 * k + 1] + b[4 * k + 2] + b[4 * k + 3]
    ensures Sum(Reverse(Row(b, k))) == Sum(Row(b, k))
  {
    Sum4(Row(b, k));
    Sum4(Reverse(Row(b, k)));
  }

  lemma ColumnSum(b: seq<nat>, k: nat)
    requires |b| == 16 && k < 4
    ensures Sum(Column(b, k)) == b[k] + b[k + 4] + b[k + 8] + b[k + 12]
    ensures Sum(Reverse(Column(b, k))) == Sum(Column(b, k))
  {
    Sum4(Column(b, k));
    Sum4(Reverse(Column(b, k)));
  }

  lemma RowsSum(b: seq<nat>)
    requires |b| == 16
    ensures Sum(b) == Sum(Row(b, 0)) + Sum(Row(b, 1)) + Sum(Row(b, 2)) + Sum(Row(b, 3))
  {
    assert b[..8] == Row(b, 0) + Row(b, 1);
    assert b[..12] == b[..8] + Row(b, 2);
    assert b == b[..12] + Row(b, 3);
    SumConcat(b[..12], Row(b, 3));
    SumConcat(b[..8], Row(b, 2));
    SumConcat(Row(b, 0), Row(b, 1));
  }

  lemma ColumnsSum(b: seq<nat>)
    requires |b| == 16
    ensures Sum(b) == Sum(Column(b, 0)) + Sum(Column(b, 1)) + Sum(Column(b, 2)) + Sum(Column(b, 3))
  {
    SumCells(b);
    ColumnSum(b, 0);
    ColumnSum(b, 1);
    ColumnSum(b, 2);
    ColumnSum(b, 3);
  }

  /** The line of a row direction holds the row, in some order, and so its sum. */
  lemma RowLineSum(b: seq<nat>, d: Direction, k: nat)
    requires |b| == 16 && k < 4 && (d == Left || d == Right)
    ensures Sum(LineAt(b, d, k)) == Sum(Row(b, k))
  {
    RowLines(b, k);
    RowSum(b, k);
  }

  lemma ColumnLineSum(b: seq<nat>, d: Direction, k: nat)
    requires |b| == 16 && k < 4 && (d == Up || d == Down)
    ensures Sum(LineAt(b, d, k)) == Sum(Column(b, k))
  {
    ColumnLines(b, k);
    ColumnSum(b, k);
  }

  /** The sum of the board is the sum of the sums of the lines of any direction. */
  lemma LinesSum(d: Direction, b: seq<nat>)
    requires |b| == 16
    ensures Sum(b) == Sum(LineAt(b, d, 0)) + Sum(LineAt(b, d, 1)) + Sum(LineAt(b, d, 2)) + Sum(LineAt(b, d, 3))
  {
    if d == Left || d == Right {
      RowsSum(b);
      RowLineSum(b, d, 0);
      RowLineSum(b, d, 1);
      RowLineSum(b, d, 2);
      RowLineSum(b, d, 3);
    } else {
      ColumnsSum(b);
      ColumnLineSum(b, d, 0);
      ColumnLineSum(b, d, 1);
      ColumnLineSum(b, d, 2);
      ColumnLineSum(b, d, 3);
    }
  }

  lemma OccupiedLine(d: Direction, b: seq<nat>, k: nat)
    requires |b| == 16 && k < 4
    ensures Occupied(LineAt(b, d, k)) == LineAt(Occupied(b), d, k)
  {
  }

  lemma LinesCount(d: Direction, b: seq<nat>)
    requires |b| == 16
    ensures Count(b) == Count(LineAt(b, d, 0)) + Count(LineAt(b, d, 1)) + Count(LineAt(b, d, 2)) + Count(LineAt(b, d, 3))
  {
    LinesSum(d, Occupied(b));
    OccupiedLine(d, b, 0);
    OccupiedLine(d, b, 1);
    OccupiedLine(d, b, 2);
    OccupiedLine(d, b, 3);
  }

  // ---------------------------------------------------------------------
  // Properties of a move on the board

  /** A move keeps the sum of all tiles. */
  lemma MoveSum(d: Direction, b: seq<nat>)
    requires |b| == 16
    ensures Sum(MoveBoard(d, b)) == Sum(b)
  {
    var r := MoveBoard(d, b);
    LinesSum(d, b);
    LinesSum(d, r);
    forall k | 0 <= k < 4 ensures Sum(LineAt(r, d, k)) == Sum(LineAt(b, d, k)) {
      MoveLines(d, b, k);
      SlideSum(LineAt(b, d, k));
    }
  }

  /** A move removes exactly one tile per merge. */
  lemma MoveCount(d: Direction, b: seq<nat>)
    requires |b| == 16
    ensures Count(MoveBoard(d, b)) + BoardMerges(d, b) == Count(b)
  {
    var r := MoveBoard(d, b);
    LinesCount(d, b);
    LinesCount(d, r);
    forall k | 0 <= k < 4 ensures Count(LineAt(r, d, k)) + Merges(LineAt(b, d, k)) == Count(LineAt(b, d, k)) {
      MoveLines(d, b, k);
      SlideCount(LineAt(b, d, k));
    }
  }

  /** The score gained is at most the sum of the tiles, and 0 exactly when nothing merges. */
  lemma MoveGain(d: Direction, b: seq<nat>)
    requires |b| == 16
    ensures BoardGain(d, b) <= Sum(b)
    ensures BoardGain(d, b) == 0 <==> BoardMerges(d, b) == 0
  {
    LinesSum(d, b);
    BoardGainLines(d, b);
    GainBound(LineAt(b, d, 0));
    GainBound(LineAt(b, d, 1));
    GainBound(LineAt(b, d, 2));
    GainBound(LineAt(b, d, 3));
  }

  /** A move leaves the board unchanged exactly when every one of its lines is settled. */
  lemma MoveUnchangedIff(d: Direction, b: seq<nat>)
    requires |b| == 16
    ensures MoveBoard(d, b) == b <==> forall k :: 0 <= k < 4 ==> Settled(LineAt(b, d, k))
  {
    var r := MoveBoard(d, b);
    if r == b {
      forall k | 0 <= k < 4 ensures Settled(LineAt(b, d, k)) {
        MoveLines(d, b, k);
        SlideFixedIff(LineAt(b, d, k));
      }
    }
    if forall k :: 0 <= k < 4 ==> Settled(LineAt(b, d, k)) {
      forall p | 0 <= p < 16 ensures r[p] == b[p] {
        SlideFixedIff(LineAt(b, d, LineOf(d, p)));
        CellOfPosition(d, p);
      }
    }
  }

  /** A move that leaves the board unchanged scores nothing. */
  lemma NoChangeNoGain(d: Direction, b: seq<nat>)
    requires |b| == 16
    requires MoveBoard(d, b) == b
    ensures BoardGain(d, b) == 0 && BoardMerges(d, b) == 0
  {
    BoardGainLines(d, b);
    forall k | 0 <= k < 4 ensures Gain(LineAt(b, d, k)) == 0 && Merges(LineAt(b, d, k)) == 0 {
      MoveLines(d, b, k);
      SettledNoGain(LineAt(b, d, k));
    }
  }

  /** A move that changes the board leaves an empty cell for the next tile. */
  lemma MoveChangedLeavesEmpty(d: Direction, b: seq<nat>)
    requires |b| == 16
    requires MoveBoard(d, b) != b
    ensures exists p :: 0 <= p < 16 && MoveBoard(d, b)[p] == 0
  {
    var r := MoveBoard(d, b);
    var p :| 0 <= p < 16 && r[p] != b[p];
    var k := LineOf(d, p);
    CellOfPosition(d, p);
    MoveLines(d, b, k);
    var s := LineAt(b, d, k);
    SlideChangedFreesBack(s);
    assert r[Cell(d, k, 3)] == 0;
  }
}
