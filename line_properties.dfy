/**
 * What a move does to one line: it keeps the sum of the tiles, leaves the
 * line compacted toward its front, removes one tile per merge, scores the
 * merged tiles, leaves a line unchanged exactly when that line is settled,
 * and frees a cell whenever it changes the line.
 */
module LineProperties {
  import opened Line

  // ---------------------------------------------------------------------
  // Helpers

  lemma {:induction false} FullFromCompact(s: seq<nat>)
    requires |Compact(s)| == |s|
    ensures forall i :: 0 <= i < |s| ==> s[i] != 0
  {
    if s != [] {
      if s[0] == 0 {
        assert |Compact(s[1..])| <= |s| - 1;
      } else {
        FullFromCompact(s[1..]);
        assert forall i :: 1 <= i < |s| ==> s[i] == s[1..][i - 1];
      }
    }
  }

  /** A compacted line is its tiles followed by empty cells. */
  lemma {:induction false} CompactedForm(s: seq<nat>)
    requires Compacted(s)
    ensures s == Compact(s) + Zeros(|s| - |Compact(s)|)
  {
    if s != [] {
      assert Compacted(s[1..]) by {
        forall i, j | 0 <= i < j < |s[1..]| && s[1..][i] == 0 ensures s[1..][j] == 0 {
          assert s[i + 1] == 0;
        }
      }
      if s[0] == 0 {
        assert forall j :: 0 < j < |s| ==> s[j] == 0;
        CompactOfEmpty(s);
      } else {
        CompactedForm(s[1..]);
        var c := Compact(s[1..]);
        assert s == [s[0]] + s[1..];
      }
    }
  }

  /** Tiles followed by empty cells form a compacted line. */
  lemma FormCompacted(c: seq<nat>, n: nat)
    requires forall i :: 0 <= i < |c| ==> c[i] != 0
    ensures Compacted(c + Zeros(n))
    ensures Compact(c + Zeros(n)) == c
  {
    var s := c + Zeros(n);
    forall i, j | 0 <= i < j < |s| && s[i] == 0 ensures s[j] == 0 {
      assert i >= |c|;
    }
    CompactConcat(c, Zeros(n));
    CompactOfFull(c);
    CompactOfEmpty(Zeros(n));
  }

  /** For a list of tiles, no merge happens exactly when no neighbours are equal. */
  lemma {:induction false} NoMergeIff(c: seq<nat>)
    requires forall i :: 0 <= i < |c| ==> c[i] != 0
    ensures MergeCount(c) == 0 <==> NoEqualNeighbours(c)
    ensures NoEqualNeighbours(c) ==> Merged(c) == c && MergeGain(c) == 0
    decreases |c|
  {
    if |c| >= 2 && c[0] != c[1] {
      var t := c[1..];
      assert NoEqualNeighbours(c) <==> NoEqualNeighbours(t) by {
        if NoEqualNeighbours(t) {
          forall i | 0 < i < |c| && c[i] != 0 ensures c[i - 1] != c[i] {
            if i > 1 {
              assert t[i - 2] == c[i - 1] && t[i - 1] == c[i];
            }
          }
        }
        if NoEqualNeighbours(c) {
          forall i | 0 < i < |t| && t[i] != 0 ensures t[i - 1] != t[i] {
            assert c[i] == t[i - 1] && c[i + 1] == t[i];
          }
        }
      }
      NoMergeIff(t);
      assert c == [c[0]] + t;
    }
  }

  lemma {:induction false} MergeGainBound(c: seq<nat>)
    requires forall i :: 0 <= i < |c| ==> c[i] != 0
    ensures MergeGain(c) <= Sum(c)
    ensures MergeGain(c) == 0 <==> MergeCount(c) == 0
    ensures 2 * MergeCount(c) <= |c|
    decreases |c|
  {
    if |c| >= 2 {
      assert c == [c[0]] + c[1..];
      SumConcat([c[0]], c[1..]);
      if c[0] == c[1] {
        MergeGainBound(c[2..]);
        assert c == [c[0], c[1]] + c[2..];
        SumConcat([c[0], c[1]], c[2..]);
      } else {
        MergeGainBound(c[1..]);
      }
    }
  }

  /**
   * r is made from the tile list c block by block, front first: each block
   * is one tile, kept, or two equal tiles, summed. A tile of c is in exactly
   * one block, so it takes part in at most one merge.
   */
  ghost predicate MergesOnce(c: seq<nat>, r: seq<nat>)
    decreases |c|
  {
    if c == [] then r == []
    else
      && r != []
      && ((r[0] == c[0] && MergesOnce(c[1..], r[1..]))
          || (|c| >= 2 && c[0] == c[1] && r[0] == c[0] + c[1] && MergesOnce(c[2..], r[1..])))
  }

  /**
   * The one-merge-per-tile rule: Merged builds its result block by block, so
   * no tile takes part in two merges and a merged tile is not merged again.
   */
  lemma {:induction false} MergedOnce(c: seq<nat>)
    ensures MergesOnce(c, Merged(c))
    decreases |c|
  {
    if |c| == 1 {
      assert c[1..] == [] && Merged(c)[1..] == [];
    } else if |c| >= 2 && c[0] == c[1] {
      MergedOnce(c[2..]);
      assert Merged(c)[1..] == Merged(c[2..]);
    } else if |c| >= 2 {
      MergedOnce(c[1..]);
      assert Merged(c)[1..] == Merged(c[1..]);
    }
  }

  /** A chained merge, such as [2, 2, 4] giving [8], is not block by block. */
  lemma ChainedMergeExcluded()
    ensures !MergesOnce([2, 2, 4], [8])
  {
    assert [2, 2, 4][1..] == [2, 4] && [2, 2, 4][2..] == [4];
  }

  // ---------------------------------------------------------------------
  // Properties of a move on one line

  /** A move keeps the sum of the tiles on the line. */
  lemma SlideSum(s: seq<nat>)
    ensures Sum(Slide(s)) == Sum(s)
  {
    var m := Merged(Compact(s));
    SumConcat(m, Zeros(|s| - |m|));
    SumZeros(|s| - |m|);
    MergedSum(Compact(s));
    CompactSum(s);
  }

  /** After a move the line holds the merged tiles, compacted toward its front. */
  lemma SlideCompacted(s: seq<nat>)
    ensures Compacted(Slide(s))
    ensures Compact(Slide(s)) == Merged(Compact(s))
  {
    var m := Merged(Compact(s));
    MergedTiles(Compact(s));
    FormCompacted(m, |s| - |m|);
  }

  /** Each merge removes exactly one tile, and at most half of the tiles take part in merges. */
  lemma SlideCount(s: seq<nat>)
    ensures Count(Slide(s)) + Merges(s) == Count(s)
    ensures 2 * Merges(s) <= Count(s)
  {
    SlideCompacted(s);
    OccupiedCount(Slide(s));
    OccupiedCount(s);
    MergedLength(Compact(s));
    MergeGainBound(Compact(s));
  }

  /**
   * The tiles a move leaves on a line come from the line's tiles block by
   * block, each block one tile or two equal tiles: every tile merges at most
   * once per move.
   */
  lemma SlideMergesOnce(s: seq<nat>)
    ensures MergesOnce(Compact(s), Compact(Slide(s)))
  {
    SlideCompacted(s);
    MergedOnce(Compact(s));
  }

  /** The score a move adds is made of the line's own tiles, and is 0 exactly when nothing merges. */
  lemma GainBound(s: seq<nat>)
    ensures Gain(s) <= Sum(s)
    ensures Gain(s) == 0 <==> Merges(s) == 0
  {
    MergeGainBound(Compact(s));
    CompactSum(s);
  }

  /** A move leaves a line unchanged exactly when the line is settled. */
  lemma SlideFixedIff(s: seq<nat>)
    ensures Slide(s) == s <==> Settled(s)
  {
    var c := Compact(s);
    if Settled(s) {
      CompactedForm(s);
      assert NoEqualNeighbours(c) by {
        forall i | 0 < i < |c| && c[i] != 0 ensures c[i - 1] != c[i] {
          assert s[i - 1] == c[i - 1] && s[i] == c[i];
        }
      }
      NoMergeIff(c);
    }
    if Slide(s) == s {
      SlideCompacted(s);
      assert Merged(c) == c;
      MergedLength(c);
      NoMergeIff(c);
      CompactedForm(s);
      forall i | 0 < i < |s| && s[i] != 0 ensures s[i - 1] != s[i] {
        assert i < |c|;
        assert s[i - 1] == c[i - 1] && s[i] == c[i];
      }
    }
  }

  /** A settled line scores nothing. */
  lemma SettledNoGain(s: seq<nat>)
    requires Slide(s) == s
    ensures Gain(s) == 0 && Merges(s) == 0
  {
    SlideFixedIff(s);
    SlideCompacted(s);
    MergedLength(Compact(s));
    GainBound(s);
  }

  /** A move that changes a line leaves its back cell empty. */
  lemma SlideChangedFreesBack(s: seq<nat>)
    requires Slide(s) != s
    ensures Slide(s)[|s| - 1] == 0
  {
    var c := Compact(s);
    MergedLength(c);
    if MergeCount(c) == 0 {
      NoMergeIff(c);
      if |c| == |s| {
        FullFromCompact(s);
        CompactOfFull(s);
        assert false;
      }
    }
  }

  // ---------------------------------------------------------------------
  // Worked examples of the one-merge-per-cell rule (rows moved left)

  lemma ExampleFourEqual()
    ensures Slide([2, 2, 2, 2]) == [4, 4, 0, 0] && Gain([2, 2, 2, 2]) == 8
  {
    var s: seq<nat> := [2, 2, 2, 2];
    CompactOfFull(s);
    assert Merged(s) == [4] + Merged([2, 2]) by { assert s[2..] == [2, 2]; }
    assert Merged([2, 2]) == [4] by { assert [2, 2][2..] == []; }
    assert MergeGain(s) == 4 + MergeGain([2, 2]) by { assert s[2..] == [2, 2]; }
    assert MergeGain([2, 2]) == 4 by { assert [2, 2][2..] == []; }
  }

  lemma ExampleMergeBehindTile()
    ensures Slide([4, 2, 2, 0]) == [4, 4, 0, 0] && Gain([4, 2, 2, 0]) == 4
  {
    var s: seq<nat> := [4, 2, 2, 0];
    CompactAt(s, 0); CompactAt(s, 1); CompactAt(s, 2); CompactAt(s, 3);
    assert s[4..] == [];
    var c: seq<nat> := [4, 2, 2];
    assert Compact(s) == c;
    assert Merged(c) == [4] + Merged([2, 2]) by { assert c[1..] == [2, 2]; }
    assert Merged([2, 2]) == [4] by { assert [2, 2][2..] == []; }
    assert MergeGain(c) == MergeGain([2, 2]) by { assert c[1..] == [2, 2]; }
    assert MergeGain([2, 2]) == 4 by { assert [2, 2][2..] == []; }
  }

  lemma ExampleMergeAtBack()
    ensures Slide([0, 0, 2, 2]) == [4, 0, 0, 0] && Gain([0, 0, 2, 2]) == 4
  {
    var s: seq<nat> := [0, 0, 2, 2];
    CompactAt(s, 0); CompactAt(s, 1); CompactAt(s, 2); CompactAt(s, 3);
    assert s[4..] == [];
    var c: seq<nat> := [2, 2];
    assert Compact(s) == c;
    assert Merged(c) == [4] && MergeGain(c) == 4 by { assert c[2..] == []; }
  }

  /**
   * A tile produced by a merge is not merged again in the same move, so a
   * move is not idempotent: a second move can merge what the first produced.
   */
  lemma MergedTileWaitsForNextMove()
    ensures Slide([2, 2, 4, 0]) == [4, 4, 0, 0]
    ensures Slide(Slide([2, 2, 4, 0])) == [8, 0, 0, 0]
  {
    var s: seq<nat> := [2, 2, 4, 0];
    CompactAt(s, 0); CompactAt(s, 1); CompactAt(s, 2); CompactAt(s, 3);
    assert s[4..] == [];
    var c: seq<nat> := [2, 2, 4];
    assert Compact(s) == c;
    assert Merged(c) == [4] + Merged([4]) by { assert c[2..] == [4]; }
    var u: seq<nat> := [4, 4, 0, 0];
    assert Slide(s) == u;
    CompactAt(u, 0); CompactAt(u, 1); CompactAt(u, 2); CompactAt(u, 3);
    assert u[4..] == [];
    assert Compact(u) == [4, 4];
    assert Merged([4, 4]) == [8] by { assert [4, 4][2..] == []; }
  }
}
