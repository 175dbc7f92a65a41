/**
 * One line of the 2048 board (a row or a column), listed from the edge the
 * tiles move toward: element 0 is the front. A cell holds a tile value; 0 is
 * an empty cell.
 *
 * The reference rule for a move on one line is the classic one: drop the empty
 * cells, merge equal neighbours pairwise from the front (a tile produced by a
 * merge is not merged again in the same move), and fill the back with empty
 * cells. The imperative scan of the game (module GameStep) is proved equal to
 * this rule.
 */
module Line {

  /** n empty cells. */
  function Zeros(n: nat): (r: seq<nat>)
    ensures |r| == n
    ensures forall i :: 0 <= i < n ==> r[i] == 0
  {
    seq(n, _ => 0)
  }

  /** The tiles of s in order, empty cells removed. */
  function Compact(s: seq<nat>): (r: seq<nat>)
    ensures |r| <= |s|
    ensures forall i :: 0 <= i < |r| ==> r[i] != 0
  {
    if s == [] then []
    else if s[0] == 0 then Compact(s[1..])
    else [s[0]] + Compact(s[1..])
  }

  /** Merges equal neighbours of a tile list pairwise, front to back. */
  function Merged(c: seq<nat>): (r: seq<nat>)
    ensures |r| <= |c|
    decreases |c|
  {
    if |c| < 2 then c
    else if c[0] == c[1] then [c[0] + c[1]] + Merged(c[2..])
    else [c[0]] + Merged(c[1..])
  }

  /** The sum of the tiles that Merged(c) produces by merging. */
  function MergeGain(c: seq<nat>): nat
    decreases |c|
  {
    if |c| < 2 then 0
    else if c[0] == c[1] then (c[0] + c[1]) + MergeGain(c[2..])
    else MergeGain(c[1..])
  }

  /** The number of merges Merged(c) performs. */
  function MergeCount(c: seq<nat>): nat
    decreases |c|
  {
    if |c| < 2 then 0
    else if c[0] == c[1] then 1 + MergeCount(c[2..])
    else MergeCount(c[1..])
  }

  /** The line after a move toward its front. */
  function Slide(s: seq<nat>): (r: seq<nat>)
    ensures |r| == |s|
  {
    var m := Merged(Compact(s));
    m + Zeros(|s| - |m|)
  }

  /** What a move on line s adds to the score. */
  function Gain(s: seq<nat>): nat
  {
    MergeGain(Compact(s))
  }

  /** How many merges a move on line s performs. */
  function Merges(s: seq<nat>): nat
  {
    MergeCount(Compact(s))
  }

  function Sum(s: seq<nat>): nat
  {
    if s == [] then 0 else s[0] + Sum(s[1..])
  }

  /** 1 for every occupied cell of s, 0 for every empty one. */
  function Occupied(s: seq<nat>): (r: seq<nat>)
    ensures |r| == |s|
  {
    seq(|s|, i requires 0 <= i < |s| => if s[i] != 0 then 1 else 0)
  }

  /** The number of tiles on s. */
  function Count(s: seq<nat>): nat
  {
    Sum(Occupied(s))
  }

  /** No empty cell in front of a tile. */
  ghost predicate Compacted(s: seq<nat>)
  {
    forall i, j :: 0 <= i < j < |s| && s[i] == 0 ==> s[j] == 0
  }

  /** No two neighbouring tiles are equal. */
  ghost predicate NoEqualNeighbours(s: seq<nat>)
  {
    forall i :: 0 < i < |s| && s[i] != 0 ==> s[i - 1] != s[i]
  }

  /** A line that a move toward its front leaves as it is. */
  ghost predicate Settled(s: seq<nat>)
  {
    Compacted(s) && NoEqualNeighbours(s)
  }

  // ---------------------------------------------------------------------
  // Facts about Compact, Merged and Sum used throughout.

  lemma {:induction false} CompactConcat(a: seq<nat>, b: seq<nat>)
    ensures Compact(a + b) == Compact(a) + Compact(b)
  {
    if a == [] {
      assert a + b == b;
    } else {
      assert (a + b)[0] == a[0] && (a + b)[1..] == a[1..] + b;
      CompactConcat(a[1..], b);
    }
  }

  /** Compact(s[i..]) unfolded once. */
  lemma CompactAt(s: seq<nat>, i: nat)
    requires i < |s|
    ensures Compact(s[i..]) == if s[i] == 0 then Compact(s[i + 1..]) else [s[i]] + Compact(s[i + 1..])
  {
    assert s[i..][1..] == s[i + 1..];
  }

  lemma {:induction false} CompactOfEmpty(s: seq<nat>)
    requires forall i :: 0 <= i < |s| ==> s[i] == 0
    ensures Compact(s) == []
  {
    if s != [] {
      CompactOfEmpty(s[1..]);
    }
  }

  lemma {:induction false} CompactOfFull(s: seq<nat>)
    requires forall i :: 0 <= i < |s| ==> s[i] != 0
    ensures Compact(s) == s
  {
    if s != [] {
      CompactOfFull(s[1..]);
    }
  }

  /** Empty cells between positions i and j do not change what Compact sees. */
  lemma SkipEmpty(s: seq<nat>, i: nat, j: nat)
    requires i <= j <= |s|
    requires forall m :: i <= m < j ==> s[m] == 0
    ensures Compact(s[i..]) == Compact(s[j..])
  {
    assert s[i..] == s[i..j] + s[j..];
    CompactConcat(s[i..j], s[j..]);
    CompactOfEmpty(s[i..j]);
  }

  lemma {:induction false} SumConcat(a: seq<nat>, b: seq<nat>)
    ensures Sum(a + b) == Sum(a) + Sum(b)
  {
    if a == [] {
      assert a + b == b;
    } else {
      assert (a + b)[0] == a[0] && (a + b)[1..] == a[1..] + b;
      SumConcat(a[1..], b);
    }
  }

  lemma {:induction false} SumZeros(n: nat)
    ensures Sum(Zeros(n)) == 0
  {
    if n > 0 {
      assert Zeros(n)[1..] == Zeros(n - 1);
      SumZeros(n - 1);
    }
  }

  lemma Sum4(s: seq<nat>)
    requires |s| == 4
    ensures Sum(s) == s[0] + s[1] + s[2] + s[3]
  {
    assert Sum(s[3..]) == s[3] by {
      assert s[3..][1..] == [];
    }
    assert Sum(s[2..]) == s[2] + Sum(s[3..]) by {
      assert s[2..][1..] == s[3..];
    }
    assert Sum(s[1..]) == s[1] + Sum(s[2..]) by {
      assert s[1..][1..] == s[2..];
    }
  }

  lemma {:induction false} CompactSum(s: seq<nat>)
    ensures Sum(Compact(s)) == Sum(s)
  {
    if s != [] {
      CompactSum(s[1..]);
      if s[0] != 0 {
        SumConcat([s[0]], Compact(s[1..]));
      }
    }
  }

  lemma {:induction false} MergedSum(c: seq<nat>)
    ensures Sum(Merged(c)) == Sum(c)
    decreases |c|
  {
    if |c| >= 2 {
      if c[0] == c[1] {
        MergedSum(c[2..]);
        SumConcat([c[0] + c[1]], Merged(c[2..]));
        assert c == [c[0], c[1]] + c[2..];
        SumConcat([c[0], c[1]], c[2..]);
      } else {
        MergedSum(c[1..]);
        SumConcat([c[0]], Merged(c[1..]));
      }
    }
  }

  lemma {:induction false} MergedLength(c: seq<nat>)
    ensures |Merged(c)| + MergeCount(c) == |c|
    decreases |c|
  {
    if |c| >= 2 {
      if c[0] == c[1] {
        MergedLength(c[2..]);
      } else {
        MergedLength(c[1..]);
      }
    }
  }

  lemma {:induction false} MergedTiles(c: seq<nat>)
    requires forall i :: 0 <= i < |c| ==> c[i] != 0
    ensures forall i :: 0 <= i < |Merged(c)| ==> Merged(c)[i] != 0
    decreases |c|
  {
    if |c| >= 2 {
      if c[0] == c[1] {
        MergedTiles(c[2..]);
      } else {
        MergedTiles(c[1..]);
      }
    }
  }

  lemma {:induction false} OccupiedCount(s: seq<nat>)
    ensures Count(s) == |Compact(s)|
  {
    if s != [] {
      assert Occupied(s) == [Occupied(s)[0]] + Occupied(s[1..]);
      SumConcat([Occupied(s)[0]], Occupied(s[1..]));
      OccupiedCount(s[1..]);
    }
  }

  // ---------------------------------------------------------------------
  // One step of the scan for a target cell t, with source cell j; the cells
  // strictly between t and j are empty. These are the facts the imperative
  // scan needs to stay equal to Slide.

  /** Moving a tile into an empty target keeps the line's tile list. */
  lemma ScanMove(s: seq<nat>, t: nat, j: nat, s': seq<nat>)
    requires t < j < |s|
    requires s[t] == 0 && s[j] != 0
    requires forall m :: t < m < j ==> s[m] == 0
    requires s' == s[t := s[t] + s[j]][j := 0]
    ensures Compact(s'[t..]) == Compact(s[t..])
  {
    CompactAt(s, t);
    SkipEmpty(s, t + 1, j);
    CompactAt(s, j);
    CompactAt(s', t);
    SkipEmpty(s', t + 1, j + 1);
    assert s'[j + 1..] == s[j + 1..];
  }

  /** Slide of a line whose merged tile list starts with h. */
  lemma SlideCons(u: seq<nat>, v: seq<nat>, h: nat)
    requires |u| == |v| + 1
    requires Merged(Compact(u)) == [h] + Merged(Compact(v))
    ensures Slide(u) == [h] + Slide(v)
  {
    var m := Merged(Compact(v));
    assert Slide(u) == [h] + m + Zeros(|v| - |m|);
  }

  /** Two equal tiles at the front of a tile list merge, once. */
  lemma MergePair(h: nat, d: seq<nat>)
    ensures Merged([h, h] + d) == [h + h] + Merged(d)
    ensures MergeGain([h, h] + d) == h + h + MergeGain(d)
    ensures MergeCount([h, h] + d) == 1 + MergeCount(d)
  {
    assert ([h, h] + d)[2..] == d;
  }

  /** A front tile different from the next one stays as it is. */
  lemma MergeSingle(h: nat, e: seq<nat>)
    requires e != [] && e[0] != h
    ensures Merged([h] + e) == [h] + Merged(e)
    ensures MergeGain([h] + e) == MergeGain(e)
    ensures MergeCount([h] + e) == MergeCount(e)
  {
    assert ([h] + e)[1..] == e;
  }

  /** The tile list from an equal target on: the target, the source, then what is behind the source. */
  lemma MergeTiles(s: seq<nat>, t: nat, j: nat, s': seq<nat>)
    requires t < j < |s|
    requires s[t] != 0 && s[t] == s[j]
    requires forall m :: t < m < j ==> s[m] == 0
    requires s' == s[t := s[t] + s[j]][j := 0]
    ensures Compact(s[t..]) == [s[t], s[j]] + Compact(s'[t + 1..])
  {
    CompactAt(s, t);
    SkipEmpty(s, t + 1, j);
    CompactAt(s, j);
    SkipEmpty(s', t + 1, j + 1);
    assert s'[j + 1..] == s[j + 1..];
  }

  /**
   * Settling one more cell moves its value from the slid rest onto the
   * finished prefix. Kept apart from the scan lemmas below, which otherwise
   * search for this regrouping among all their other facts about sequences.
   */
  lemma SettleOne(a: seq<nat>, h: nat, rest: seq<nat>, slid: seq<nat>)
    requires slid == [h] + rest
    ensures (a + [h]) + rest == a + slid
  {
  }

  /** Merging the source into an equal target settles the target cell. */
  lemma ScanMerge(s: seq<nat>, t: nat, j: nat, s': seq<nat>)
    requires t < j < |s|
    requires s[t] != 0 && s[t] == s[j]
    requires forall m :: t < m < j ==> s[m] == 0
    requires s' == s[t := s[t] + s[j]][j := 0]
    ensures s'[..t + 1] + Slide(s'[t + 1..]) == s[..t] + Slide(s[t..])
    ensures Gain(s[t..]) == s'[t] + Gain(s'[t + 1..])
    ensures Merges(s[t..]) == 1 + Merges(s'[t + 1..])
  {
    MergeTiles(s, t, j, s');
    MergePair(s[t], Compact(s'[t + 1..]));
    SlideCons(s[t..], s'[t + 1..], s'[t]);
    assert s'[..t + 1] == s[..t] + [s'[t]];
    SettleOne(s[..t], s'[t], Slide(s'[t + 1..]), Slide(s[t..]));
  }

  /** The tile list from a target followed by a different tile: the target, then the rest from the source on. */
  lemma BlockedTiles(s: seq<nat>, t: nat, j: nat)
    requires t < j < |s|
    requires s[t] != 0 && s[j] != 0 && s[t] != s[j]
    requires forall m :: t < m < j ==> s[m] == 0
    ensures Compact(s[t..]) == [s[t]] + Compact(s[t + 1..])
    ensures Compact(s[t + 1..]) != [] && Compact(s[t + 1..])[0] == s[j]
  {
    CompactAt(s, t);
    SkipEmpty(s, t + 1, j);
    CompactAt(s, j);
  }

  /** A target followed by a different tile is settled as it is. */
  lemma ScanBlocked(s: seq<nat>, t: nat, j: nat)
    requires t < j < |s|
    requires s[t] != 0 && s[j] != 0 && s[t] != s[j]
    requires forall m :: t < m < j ==> s[m] == 0
    ensures s[..t + 1] + Slide(s[t + 1..]) == s[..t] + Slide(s[t..])
    ensures Gain(s[t..]) == Gain(s[t + 1..])
    ensures Merges(s[t..]) == Merges(s[t + 1..])
  {
    BlockedTiles(s, t, j);
    MergeSingle(s[t], Compact(s[t + 1..]));
    SlideCons(s[t..], s[t + 1..], s[t]);
    assert s[..t + 1] == s[..t] + [s[t]];
    SettleOne(s[..t], s[t], Slide(s[t + 1..]), Slide(s[t..]));
  }

  /** A target with only empty cells behind it is settled as it is. */
  lemma ScanExhausted(s: seq<nat>, t: nat)
    requires t < |s|
    requires forall m :: t < m < |s| ==> s[m] == 0
    ensures s[..t + 1] + Slide(s[t + 1..]) == s[..t] + Slide(s[t..])
    ensures Gain(s[t..]) == Gain(s[t + 1..])
    ensures Merges(s[t..]) == Merges(s[t + 1..])
  {
    CompactAt(s, t);
    CompactOfEmpty(s[t + 1..]);
    var n := |s| - t;
    if s[t] == 0 {
      assert Slide(s[t + 1..]) == Zeros(n - 1);
      assert Slide(s[t..]) == [0] + Zeros(n - 1) by {
        assert Zeros(n) == [0] + Zeros(n - 1);
      }
    } else {
      SlideCons(s[t..], s[t + 1..], s[t]);
    }
    assert s[..t + 1] == s[..t] + [s[t]];
    SettleOne(s[..t], s[t], Slide(s[t + 1..]), Slide(s[t..]));
  }
}
