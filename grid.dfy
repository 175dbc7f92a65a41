/**
 * The 4x4 board as a flat sequence of 16 cells, cell (x, y) at y*4 + x, and
 * its lines: for each direction, line k is the row or column that the move
 * pushes toward one edge, listed from that edge. The board after a move is
 * defined line by line from Line.Slide.
 */
module Grid {
  import opened Line

  /** The player's commands; Quit is not a direction. */
  datatype Move = Up | Left | Down | Right | Quit

  type Direction = m: Move | m != Quit witness Up

  /** The flat position of column x, row y. */
  function Index(x: nat, y: nat): (r: nat)
    ensures x < 4 ==> r % 4 == x && r / 4 == y
    ensures x < 4 && y < 4 ==> r < 16
  {
    (y * 4) + x
  }

  /**
   * The position of slot i (0 is the front) of line k for a move in
   * direction d: Up and Down run along column k, Left and Right along row k.
   */
  function Cell(d: Direction, k: nat, i: nat): (p: nat)
    requires k < 4 && i < 4
    ensures p < 16
    ensures LineOf(d, p) == k && SlotOf(d, p) == i
  {
    match d
    case Up => Index(k, i)
    case Left => Index(i, k)
    case Down => Index(k, 3 - i)
    case Right => Index(3 - i, k)
  }

  /** The line that position p belongs to for direction d. */
  function LineOf(d: Direction, p: nat): (k: nat)
    requires p < 16
    ensures k < 4
  {
    if d == Up || d == Down then p % 4 else p / 4
  }

  /** The slot that position p occupies on its line for direction d. */
  function SlotOf(d: Direction, p: nat): (i: nat)
    requires p < 16
    ensures i < 4
  {
    match d
    case Up => p / 4
    case Left => p % 4
    case Down => 3 - p / 4
    case Right => 3 - p % 4
  }

  /** Every position is the cell of its own line and slot. */
  lemma CellOfPosition(d: Direction, p: nat)
    requires p < 16
    ensures Cell(d, LineOf(d, p), SlotOf(d, p)) == p
  {
  }

  /** The four positions of line k for direction d, front first. */
  function Positions(d: Direction, k: nat): (pos: seq<nat>)
    requires k < 4
    ensures |pos| == 4
    ensures forall i :: 0 <= i < 4 ==> pos[i] < 16 && LineOf(d, pos[i]) == k && SlotOf(d, pos[i]) == i
  {
    seq(4, i requires 0 <= i < 4 => Cell(d, k, i))
  }

  /** The cells of b at the positions pos, in order. */
  function Gather(b: seq<nat>, pos: seq<nat>): (s: seq<nat>)
    requires forall i :: 0 <= i < |pos| ==> pos[i] < |b|
    ensures |s| == |pos|
    ensures forall i :: 0 <= i < |pos| ==> s[i] == b[pos[i]]
  {
    seq(|pos|, i requires 0 <= i < |pos| => b[pos[i]])
  }

  /** Line k of board b for direction d, front first. */
  function LineAt(b: seq<nat>, d: Direction, k: nat): (s: seq<nat>)
    requires |b| == 16 && k < 4
    ensures |s| == 4
  {
    Gather(b, Positions(d, k))
  }

  /** The board after a move in direction d: every line slid toward its front. */
  function MoveBoard(d: Direction, b: seq<nat>): (r: seq<nat>)
    requires |b| == 16
    ensures |r| == 16
  {
    seq(16, p requires 0 <= p < 16 => Slide(LineAt(b, d, LineOf(d, p)))[SlotOf(d, p)])
  }

  /** The score gained on lines 0 .. k-1 of a move in direction d. */
  function GainUpTo(d: Direction, b: seq<nat>, k: nat): nat
    requires |b| == 16 && k <= 4
  {
    if k == 0 then 0 else GainUpTo(d, b, k - 1) + Gain(LineAt(b, d, k - 1))
  }

  /** The score gained by a move in direction d. */
  function BoardGain(d: Direction, b: seq<nat>): nat
    requires |b| == 16
  {
    GainUpTo(d, b, 4)
  }

  /** The number of merges of a move in direction d. */
  function BoardMerges(d: Direction, b: seq<nat>): nat
    requires |b| == 16
  {
    Merges(LineAt(b, d, 0)) + Merges(LineAt(b, d, 1)) + Merges(LineAt(b, d, 2)) + Merges(LineAt(b, d, 3))
  }
}
