/**
 * The move of the game, in place on the 16-cell board: for every line, the
 * front-most cell is the first target; the scan takes source cells behind it
 * one by one. An empty target takes the first tile found and the scan goes on;
 * a tile equal to the target merges into it, the merged value is added to the
 * score and the scan of that target ends; any other tile ends it. Then the
 * next cell becomes the target.
 */
module GameStep {
  import opened Line
  import opened Grid

  /** The outcome of a game step: Quit is refused with a message. */
  datatype Outcome = Pass | Fail(error: string)

  /** pos lists distinct positions of a board of n cells. */
  ghost predicate DistinctPositions(pos: seq<nat>, n: nat)
  {
    && (forall i :: 0 <= i < |pos| ==> pos[i] < n)
    && (forall i, j :: 0 <= i < j < |pos| ==> pos[i] != pos[j])
  }

  /** Writing cell pos[i] of the board writes slot i of the gathered line. */
  lemma GatherUpdate(b: seq<nat>, pos: seq<nat>, i: nat, v: nat)
    requires i < |pos| && DistinctPositions(pos, |b|)
    ensures Gather(b[pos[i] := v], pos) == Gather(b, pos)[i := v]
  {
  }

  /**
   * Slots 0 .. t-1 of line are final and the rest of the line, slid, gives
   * what is missing of Slide(orig); newScore plus what the rest will gain is
   * score plus the gain of the whole line.
   */
  ghost predicate ScanInvariant(line: seq<nat>, t: nat, orig: seq<nat>, score: nat, newScore: nat)
    requires t <= |line|
  {
    && line[..t] + Slide(line[t..]) == Slide(orig)
    && newScore + Gain(line[t..]) == score + Gain(orig)
  }

  /**
   * The two writes shared by the move and the merge branches: the source
   * tile at slot j is added into slot t and slot j is emptied.
   */
  method AddInto(field: array<nat>, pos: seq<nat>, t: nat, j: nat)
    requires |pos| == 4 && DistinctPositions(pos, field.Length) && t < j < 4
    modifies field
    ensures var s := Gather(old(field[..]), pos);
            Gather(field[..], pos) == s[t := s[t] + s[j]][j := 0]
    ensures forall p :: 0 <= p < field.Length && p !in pos ==> field[p] == old(field[p])
  {
    ghost var b := field[..];
    field[pos[t]] := field[pos[t]] + field[pos[j]];
    field[pos[j]] := 0;
    assert field[..] == b[pos[t] := b[pos[t]] + b[pos[j]]][pos[j] := 0];
    GatherUpdate(b, pos, t, b[pos[t]] + b[pos[j]]);
    GatherUpdate(b[pos[t] := b[pos[t]] + b[pos[j]]], pos, j, 0);
  }

  // The four cases of one step of the scan, stated on the gathered line.

  lemma StepMove(s: seq<nat>, t: nat, j: nat, s': seq<nat>, orig: seq<nat>, score0: nat, score: nat)
    requires t < j < |s| && s[t] == 0 && s[j] != 0
    requires forall m :: t < m < j ==> s[m] == 0
    requires s' == s[t := s[t] + s[j]][j := 0]
    requires ScanInvariant(s, t, orig, score0, score)
    ensures ScanInvariant(s', t, orig, score0, score)
    ensures forall m :: t < m < j + 1 ==> s'[m] == 0
  {
    ScanMove(s, t, j, s');
    assert s'[..t] == s[..t];
  }

  lemma StepMerge(s: seq<nat>, t: nat, j: nat, s': seq<nat>, orig: seq<nat>, score0: nat, score: nat)
    requires t < j < |s| && s[t] != 0 && s[t] == s[j]
    requires forall m :: t < m < j ==> s[m] == 0
    requires s' == s[t := s[t] + s[j]][j := 0]
    requires ScanInvariant(s, t, orig, score0, score)
    ensures ScanInvariant(s', t + 1, orig, score0, score + s'[t])
  {
    ScanMerge(s, t, j, s');
  }

  lemma StepBlocked(s: seq<nat>, t: nat, j: nat, orig: seq<nat>, score0: nat, score: nat)
    requires t < j < |s| && s[t] != 0 && s[j] != 0 && s[t] != s[j]
    requires forall m :: t < m < j ==> s[m] == 0
    requires ScanInvariant(s, t, orig, score0, score)
    ensures ScanInvariant(s, t + 1, orig, score0, score)
  {
    ScanBlocked(s, t, j);
  }

  lemma StepExhausted(s: seq<nat>, t: nat, orig: seq<nat>, score0: nat, score: nat)
    requires t < |s|
    requires forall m :: t < m < |s| ==> s[m] == 0
    requires ScanInvariant(s, t, orig, score0, score)
    ensures ScanInvariant(s, t + 1, orig, score0, score)
  {
    ScanExhausted(s, t);
  }

  /**
   * One turn of the innermost loop of an arm of the move: the source cell at
   * slot next, behind slot target of the line at pos, with every cell between
   * them empty. It is moved forward, merged, or it blocks the target; done
   * says that the scan of slot target has ended.
   */
  method ScanSource(field: array<nat>, pos: seq<nat>, target: nat, next: nat, score: nat,
                    ghost orig: seq<nat>, ghost score0: nat)
    returns (newScore: nat, done: bool)
    requires |pos| == 4 && DistinctPositions(pos, field.Length) && target < next < 4
    requires ScanInvariant(Gather(field[..], pos), target, orig, score0, score)
    requires forall m :: target < m < next ==> Gather(field[..], pos)[m] == 0
    modifies field
    ensures done ==> ScanInvariant(Gather(field[..], pos), target + 1, orig, score0, newScore)
    ensures !done ==> ScanInvariant(Gather(field[..], pos), target, orig, score0, newScore)
    ensures !done ==> forall m :: target < m < next + 1 ==> Gather(field[..], pos)[m] == 0
    ensures forall p :: 0 <= p < field.Length && p !in pos ==> field[p] == old(field[p])
  {
    ghost var s := Gather(field[..], pos);
    newScore, done := score, false;
    if field[pos[next]] != 0 {
      if field[pos[target]] == 0 {
        AddInto(field, pos, target, next);
        StepMove(s, target, next, Gather(field[..], pos), orig, score0, score);
      } else if field[pos[target]] == field[pos[next]] {
        AddInto(field, pos, target, next);
        StepMerge(s, target, next, Gather(field[..], pos), orig, score0, score);
        newScore, done := score + field[pos[target]], true;
      } else {
        StepBlocked(s, target, next, orig, score0, score);
        done := true;
      }
    }
  }

  /**
   * The innermost loop of one arm of the move: the scan of the source cells
   * behind slot target of the line at pos. It settles slot target.
   */
  method ScanTarget(field: array<nat>, pos: seq<nat>, target: nat, score: nat, ghost orig: seq<nat>, ghost score0: nat)
    returns (newScore: nat)
    requires |pos| == 4 && DistinctPositions(pos, field.Length) && target < 4
    requires ScanInvariant(Gather(field[..], pos), target, orig, score0, score)
    modifies field
    ensures ScanInvariant(Gather(field[..], pos), target + 1, orig, score0, newScore)
    ensures forall p :: 0 <= p < field.Length && p !in pos ==> field[p] == old(field[p])
  {
    newScore := score;
    for next := target + 1 to 4
      invariant ScanInvariant(Gather(field[..], pos), target, orig, score0, newScore)
      invariant forall m :: target < m < next ==> Gather(field[..], pos)[m] == 0
      invariant forall p :: 0 <= p < field.Length && p !in pos ==> field[p] == old(field[p])
    {
      var done;
      newScore, done := ScanSource(field, pos, target, next, newScore, orig, score0);
      if done {
        return;
      }
    }
    StepExhausted(Gather(field[..], pos), target, orig, score0, newScore);
  }

  /**
   * The target and source loops of one arm of the move, on the line whose
   * four cells are at pos, front first.
   */
  method ShiftLine(field: array<nat>, pos: seq<nat>, score: nat) returns (newScore: nat)
    requires |pos| == 4 && DistinctPositions(pos, field.Length)
    modifies field
    ensures Gather(field[..], pos) == Slide(Gather(old(field[..]), pos))
    ensures newScore == score + Gain(Gather(old(field[..]), pos))
    ensures forall p :: 0 <= p < field.Length && p !in pos ==> field[p] == old(field[p])
  {
    ghost var orig := Gather(field[..], pos);
    newScore := score;
    for target := 0 to 4
      invariant ScanInvariant(Gather(field[..], pos), target, orig, score, newScore)
      invariant forall p :: 0 <= p < field.Length && p !in pos ==> field[p] == old(field[p])
    {
      newScore := ScanTarget(field, pos, target, newScore, orig, score);
    }
    assert Gather(field[..], pos)[..4] == Gather(field[..], pos);
  }

  /** The four cells of a line are distinct cells of the board. */
  lemma PositionsDistinct(d: Direction, k: nat)
    requires k < 4
    ensures DistinctPositions(Positions(d, k), 16)
  {
  }

  /** On f, lines 0 .. k-1 of a move in direction d hold their cells of the moved board, the others those of b. */
  ghost predicate LinesDone(d: Direction, b: seq<nat>, f: seq<nat>, k: nat)
    requires |b| == 16 && |f| == 16
  {
    forall p {:trigger f[p]} :: 0 <= p < 16 ==> f[p] == if LineOf(d, p) < k then MoveBoard(d, b)[p] else b[p]
  }

  /** Before line k is shifted, its cells still hold line k of the original board. */
  lemma LineUntouched(d: Direction, b: seq<nat>, f: seq<nat>, k: nat)
    requires |b| == 16 && |f| == 16 && k < 4 && LinesDone(d, b, f, k)
    ensures Gather(f, Positions(d, k)) == LineAt(b, d, k)
  {
  }

  /** Shifting line k in place, and nothing else, makes lines 0 .. k done. */
  lemma LineShifted(d: Direction, b: seq<nat>, f: seq<nat>, f': seq<nat>, k: nat)
    requires |b| == 16 && |f| == 16 && |f'| == 16 && k < 4
    requires LinesDone(d, b, f, k)
    requires Gather(f', Positions(d, k)) == Slide(Gather(f, Positions(d, k)))
    requires forall p :: 0 <= p < 16 && p !in Positions(d, k) ==> f'[p] == f[p]
    ensures LinesDone(d, b, f', k + 1)
  {
    var pos := Positions(d, k);
    LineUntouched(d, b, f, k);
    forall p | 0 <= p < 16
      ensures f'[p] == if LineOf(d, p) < k + 1 then MoveBoard(d, b)[p] else b[p]
    {
      if LineOf(d, p) == k {
        CellOfPosition(d, p);
        assert p == pos[SlotOf(d, p)];
      } else {
        assert p !in pos;
      }
    }
  }

  /** With all four lines done, f is the moved board. */
  lemma AllLinesDone(d: Direction, b: seq<nat>, f: seq<nat>)
    requires |b| == 16 && |f| == 16 && LinesDone(d, b, f, 4)
    ensures f == MoveBoard(d, b)
  {
  }

  /** Lines 0 .. k-1 of a move in direction d are done on f and have added their gain to score0. */
  ghost predicate Progress(d: Direction, b: seq<nat>, f: seq<nat>, k: nat, score0: nat, score: nat)
    requires |b| == 16 && |f| == 16 && k <= 4
  {
    LinesDone(d, b, f, k) && score == score0 + GainUpTo(d, b, k)
  }

  /**
   * Line k of a move in direction d, shifted in place: the progress of the
   * move advances from k lines to k + 1.
   */
  method ShiftLineOf(field: array<nat>, d: Direction, k: nat, score: nat, ghost b: seq<nat>, ghost score0: nat)
    returns (newScore: nat)
    requires field.Length == 16 && |b| == 16 && k < 4
    requires Progress(d, b, field[..], k, score0, score)
    modifies field
    ensures Progress(d, b, field[..], k + 1, score0, newScore)
  {
    var pos := Positions(d, k);
    PositionsDistinct(d, k);
    ghost var before := field[..];
    LineUntouched(d, b, before, k);
    newScore := ShiftLine(field, pos, score);
    LineShifted(d, b, before, field[..], k);
  }

  /**
   * The four arms of the move that take a direction: every line, in turn,
   * is shifted toward that edge and its merged values are added to the score.
   */
  method ShiftBoard(field: array<nat>, d: Direction, score: nat, ghost b: seq<nat>) returns (newScore: nat)
    requires field.Length == 16 && field[..] == b
    modifies field
    ensures field[..] == MoveBoard(d, b)
    ensures newScore == score + BoardGain(d, b)
  {
    newScore := score;
    for k := 0 to 4
      invariant Progress(d, b, field[..], k, score, newScore)
    {
      newScore := ShiftLineOf(field, d, k, newScore, b, score);
    }
    AllLinesDone(d, b, field[..]);
  }

  /**
   * One game step: for a direction, every line is shifted toward that edge
   * and the merged values are added to the score; Quit is refused and
   * changes nothing.
   */
  method DoGameStep(umove: Move, field: array<nat>, score: nat) returns (r: Outcome, newScore: nat)
    requires field.Length == 16
    modifies field
    ensures umove == Quit ==> r == Fail("Invalid input.") && field[..] == old(field[..]) && newScore == score
    ensures umove != Quit ==> r == Pass
    ensures umove != Quit ==> field[..] == MoveBoard(umove, old(field[..]))
    ensures umove != Quit ==> newScore == score + BoardGain(umove, old(field[..]))
  {
    if umove == Quit {
      return Fail("Invalid input."), score;
    }
    newScore := ShiftBoard(field, umove, score, field[..]);
    r := Pass;
  }
}
