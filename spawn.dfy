/**
 * Placing a new tile. The game draws random numbers until one aims at an
 * empty cell; the draws are given here as a sequence, in order, instead of
 * coming from a random source.
 */
module Spawn {
  import opened Grid

  /** The cell a draw aims at: column (rnd / 4) % 4, row rnd % 4. */
  function SpawnCell(rnd: nat): (p: nat)
    ensures p < 16
    ensures p % 4 == (rnd / 4) % 4 && p / 4 == rnd % 4
  {
    Index((rnd / 4) % 4, rnd % 4)
  }

  /** Every cell of the board is aimed at by some draw below 16. */
  lemma SpawnReachesEveryCell(p: nat)
    requires p < 16
    ensures exists rnd :: rnd < 16 && SpawnCell(rnd) == p
  {
    var x, y := p % 4, p / 4;
    var rnd := 4 * x + y;
    assert rnd / 4 == x && rnd % 4 == y;
    assert p == Index(x, y);
    assert SpawnCell(rnd) == p;
  }

  /** How the drawing loop ended. */
  datatype SpawnResult =
    | Placed(draw: nat)                 // draws[draw] aimed at an empty cell, which now holds a tile
    | Failed(draw: nat, error: string)  // draws[draw] aimed outside the board
    | OutOfDraws                        // every given draw aimed at an occupied cell

  /**
   * The drawing loop: each draw aims at one cell; an empty cell receives a
   * 4 when the draw is a multiple of 10 and a 2 otherwise, and the loop
   * ends; an occupied cell is left alone and the next draw is taken.
   */
  method GenRandCell(field: array<nat>, draws: seq<nat>) returns (r: SpawnResult)
    modifies field
    ensures r.Placed? ==> r.draw < |draws|
    ensures r.Placed? ==>
              var rnd := draws[r.draw];
              && SpawnCell(rnd) < field.Length && old(field[SpawnCell(rnd)]) == 0
              && field[..] == old(field[..])[SpawnCell(rnd) := if rnd % 10 == 0 then 4 else 2]
    ensures r.Failed? ==> r.draw < |draws| && SpawnCell(draws[r.draw]) >= field.Length
    ensures r.Failed? ==> r.error == "Index out of range." && field[..] == old(field[..])
    ensures field.Length >= 16 ==> !r.Failed?
    ensures r.OutOfDraws? ==> field[..] == old(field[..])
    ensures forall j :: 0 <= j < (if r.OutOfDraws? then |draws| else r.draw) ==>
                SpawnCell(draws[j]) < field.Length && old(field[SpawnCell(draws[j])]) != 0
    ensures r.OutOfDraws? ==> forall j :: 0 <= j < |draws| ==> field[SpawnCell(draws[j])] != 0
  {
    for i := 0 to |draws|
      invariant field[..] == old(field[..])
      invariant forall j :: 0 <= j < i ==> SpawnCell(draws[j]) < field.Length && field[SpawnCell(draws[j])] != 0
    {
      var rnd := draws[i];
      var idx := Index((rnd / 4) % 4, rnd % 4);
      if idx >= field.Length {
        return Failed(i, "Index out of range.");
      }
      if field[idx] == 0 {
        if rnd % 10 == 0 {
          field[idx] := 4;
        } else {
          field[idx] := 2;
        }
        return Placed(i);
      }
    }
    return OutOfDraws;
  }
}
