/** The rule a tilt applies to one column of the 2048 board.

    A column is given by row: `col[0]` is row 0, the row farthest from the
    edge the tiles move toward, and `col[|col| - 1]` is the row on that edge.
    A slot holding 0 is empty; any other number is a tile of that value.

    Tilting packs the tiles toward the edge and merges equal neighbours,
    scanning from the edge inward: two equal adjacent tiles become one tile
    of twice the value, which takes no part in a further merge, and the scan
    continues with the tile after the pair. */
module Column {

  predicate NonNeg(col: seq<int>)
  {
    forall k :: 0 <= k < |col| ==> col[k] >= 0
  }

  /** Every element is a tile (no empty slot). */
  predicate AllTiles(ts: seq<int>)
  {
    forall k :: 0 <= k < |ts| ==> ts[k] > 0
  }

  /** The one-element sequence of a tile, the empty sequence of an empty slot. */
  function Keep(x: int): seq<int>
  {
    if x == 0 then [] else [x]
  }

  /** The tiles of a column, in row order, with the empty slots squeezed out. */
  function Tiles(col: seq<int>): (ts: seq<int>)
    ensures |ts| <= |col|
  {
    if col == [] then []
    else Tiles(col[..|col| - 1]) + Keep(col[|col| - 1])
  }

  function Zeros(k: nat): (z: seq<int>)
  {
    seq(k, _ => 0)
  }

  /** The tiles after the merge pass, scanning from the last (edge) tile inward:
      an equal pair becomes one tile of twice the value and the scan resumes
      behind the pair. */
  function Merged(ts: seq<int>): (m: seq<int>)
    ensures |m| <= |ts|
    decreases |ts|
  {
    var n := |ts|;
    if n < 2 then ts
    else if ts[n - 2] == ts[n - 1] then Merged(ts[..n - 2]) + [2 * ts[n - 1]]
    else Merged(ts[..n - 1]) + [ts[n - 1]]
  }

  /** The points the merge pass scores: twice the value of each merged pair. */
  function Gain(ts: seq<int>): int
    decreases |ts|
  {
    var n := |ts|;
    if n < 2 then 0
    else if ts[n - 2] == ts[n - 1] then Gain(ts[..n - 2]) + 2 * ts[n - 1]
    else Gain(ts[..n - 1])
  }

  /** The number of merges the merge pass performs. */
  function Merges(ts: seq<int>): nat
    decreases |ts|
  {
    var n := |ts|;
    if n < 2 then 0
    else if ts[n - 2] == ts[n - 1] then Merges(ts[..n - 2]) + 1
    else Merges(ts[..n - 1])
  }

  /** The column after the tilt: the merged tiles, packed against the edge. */
  function Slide(col: seq<int>): (s: seq<int>)
    ensures |s| == |col|
  {
    var m := Merged(Tiles(col));
    Zeros(|col| - |m|) + m
  }

  /** The points one column's tilt adds to the score. */
  function SlideGain(col: seq<int>): int
  {
    Gain(Tiles(col))
  }

  /** The number of empty slots in a column. */
  function EmptySlots(col: seq<int>): int
  {
    |col| - |Tiles(col)|
  }

  /** No tile lies farther from the edge than an empty slot. */
  predicate Packed(col: seq<int>)
  {
    forall i, j :: 0 <= i < j < |col| && col[i] != 0 ==> col[j] != 0
  }

  predicate NoEqualNeighbours(ts: seq<int>)
  {
    forall k :: 0 <= k < |ts| - 1 ==> ts[k] != ts[k + 1]
  }

  /** A column that a tilt leaves alone. */
  predicate Settled(col: seq<int>)
  {
    Packed(col) && NoEqualNeighbours(Tiles(col))
  }

  function Sum(s: seq<int>): int
  {
    if s == [] then 0 else Sum(s[..|s| - 1]) + s[|s| - 1]
  }

  /** Squeezing out the empty slots leaves only tiles. */
  lemma {:induction false} TilesAreTiles(col: seq<int>)
    requires NonNeg(col)
    ensures AllTiles(Tiles(col))
  {
    if col != [] {
      var p := col[..|col| - 1];
      TilesAreTiles(p);
      assert Tiles(col) == Tiles(p) + Keep(col[|col| - 1]);
    }
  }

  /** Merging tiles gives tiles. */
  lemma {:induction false} MergedAreTiles(ts: seq<int>)
    requires AllTiles(ts)
    ensures AllTiles(Merged(ts))
    decreases |ts|
  {
    var n := |ts|;
    if n >= 2 {
      if ts[n - 2] == ts[n - 1] {
        MergedAreTiles(ts[..n - 2]);
      } else {
        MergedAreTiles(ts[..n - 1]);
      }
    }
  }

  /** A tilted column holds no negative value, and its tiles sit against
      the edge with every empty slot behind them. */
  lemma SlidePacked(col: seq<int>)
    requires NonNeg(col)
    ensures NonNeg(Slide(col)) && Packed(Slide(col))
  {
    TilesAreTiles(col);
    MergedAreTiles(Tiles(col));
  }

  // ---------------------------------------------------------------------
  // Small-column unfoldings, used to follow the four-row branch code

  lemma TilesOfFour(col: seq<int>)
    requires |col| == 4
    ensures Tiles(col) == Keep(col[0]) + Keep(col[1]) + Keep(col[2]) + Keep(col[3])
  {
    var s3, s2, s1 := col[..3], col[..2], col[..1];
    assert s3[..2] == s2;
    assert s2[..1] == s1;
    assert s1[..0] == [];
    assert Tiles(s1) == Keep(col[0]);
    assert Tiles(s2) == Tiles(s1) + Keep(col[1]);
    assert Tiles(s3) == Tiles(s2) + Keep(col[2]);
    assert Tiles(col) == Tiles(s3) + Keep(col[3]);
  }

  lemma MergedOfTwo(a: int, b: int)
    ensures Merged([a, b]) == if a == b then [2 * b] else [a, b]
    ensures Gain([a, b]) == if a == b then 2 * b else 0
  {
    assert [a, b][..0] == [];
    assert [a, b][..1] == [a];
  }

  lemma MergedOfThree(a: int, b: int, c: int)
    ensures Merged([a, b, c]) ==
              if b == c then [a, 2 * c]
              else if a == b then [2 * b, c]
              else [a, b, c]
    ensures Gain([a, b, c]) ==
              if b == c then 2 * c else if a == b then 2 * b else 0
  {
    assert [a, b, c][..1] == [a];
    assert [a, b, c][..2] == [a, b];
    MergedOfTwo(a, b);
  }

  lemma MergedOfFour(a: int, b: int, c: int, d: int)
    ensures Merged([a, b, c, d]) ==
              if c == d then (if a == b then [2 * b, 2 * d] else [a, b, 2 * d])
              else if b == c then [a, 2 * c, d]
              else if a == b then [2 * b, c, d]
              else [a, b, c, d]
    ensures Gain([a, b, c, d]) ==
              if c == d then (if a == b then 2 * b else 0) + 2 * d
              else if b == c then 2 * c
              else if a == b then 2 * b
              else 0
  {
    assert [a, b, c, d][..2] == [a, b];
    assert [a, b, c, d][..3] == [a, b, c];
    MergedOfTwo(a, b);
    MergedOfThree(a, b, c);
  }

  /** The rule for a four-row column written out case by case, by the tiles
      `ts` it holds (row order): the column after the tilt. */
  function TiltedFour(ts: seq<int>): (s: seq<int>)
    requires |ts| <= 4
    ensures |s| == 4
  {
    if |ts| == 0 then [0, 0, 0, 0]
    else if |ts| == 1 then [0, 0, 0, ts[0]]
    else if |ts| == 2 then
      (if ts[0] == ts[1] then [0, 0, 0, 2 * ts[1]] else [0, 0, ts[0], ts[1]])
    else if |ts| == 3 then
      (if ts[1] == ts[2] then [0, 0, ts[0], 2 * ts[2]]
       else if ts[0] == ts[1] then [0, 0, 2 * ts[1], ts[2]]
       else [0, ts[0], ts[1], ts[2]])
    else
      (if ts[2] == ts[3] then
         (if ts[0] == ts[1] then [0, 0, 2 * ts[1], 2 * ts[3]] else [0, ts[0], ts[1], 2 * ts[3]])
       else if ts[1] == ts[2] then [0, ts[0], 2 * ts[2], ts[3]]
       else if ts[0] == ts[1] then [0, 2 * ts[1], ts[2], ts[3]]
       else [ts[0], ts[1], ts[2], ts[3]])
  }

  /** The points the case-by-case rule scores for tiles `ts`. */
  function GainedFour(ts: seq<int>): int
    requires |ts| <= 4
  {
    if |ts| <= 1 then 0
    else if |ts| == 2 then (if ts[0] == ts[1] then 2 * ts[1] else 0)
    else if |ts| == 3 then
      (if ts[1] == ts[2] then 2 * ts[2] else if ts[0] == ts[1] then 2 * ts[1] else 0)
    else
      (if ts[2] == ts[3] then (if ts[0] == ts[1] then 2 * ts[1] else 0) + 2 * ts[3]
       else if ts[1] == ts[2] then 2 * ts[2]
       else if ts[0] == ts[1] then 2 * ts[1]
       else 0)
  }

  /** Two four-row columns that agree slot by slot. The engine's column code
      writes one slot at a time, and comparing slot by slot is much cheaper
      for the verifier than comparing whole sequences; `SameSlotsEqual`
      turns it back into equality. */
  predicate SameSlots(a: seq<int>, b: seq<int>)
  {
    |a| == 4 && |b| == 4 && a[0] == b[0] && a[1] == b[1] && a[2] == b[2] && a[3] == b[3]
  }

  lemma SameSlotsEqual(a: seq<int>, b: seq<int>)
    requires SameSlots(a, b)
    ensures a == b
  {
    assert a == [a[0], a[1], a[2], a[3]];
  }

  /** The case-by-case rule agrees with the general one on every four-row
      column: same resulting column, same points. */
  lemma TiltedFourAgrees(col: seq<int>)
    requires |col| == 4
    ensures Slide(col) == TiltedFour(Tiles(col))
    ensures SlideGain(col) == GainedFour(Tiles(col))
  {
    TilesOfFour(col);
    var ts := Tiles(col);
    TiltedOfFew(ts);
    assert Slide(col) == Zeros(4 - |Merged(ts)|) + Merged(ts);
    assert SlideGain(col) == Gain(ts);
  }

  /** The merge pass on at most four tiles, pushed against row 3, is the
      case-by-case rule. */
  lemma TiltedOfFew(ts: seq<int>)
    requires |ts| <= 4
    ensures Zeros(4 - |Merged(ts)|) + Merged(ts) == TiltedFour(ts)
    ensures Gain(ts) == GainedFour(ts)
  {
    if |ts| == 0 {
      assert Zeros(4) == [0, 0, 0, 0];
    } else if |ts| == 1 {
      assert Zeros(3) == [0, 0, 0];
    } else if |ts| == 2 {
      assert ts == [ts[0], ts[1]];
      TiltedTwo(ts[0], ts[1]);
    } else if |ts| == 3 {
      assert ts == [ts[0], ts[1], ts[2]];
      TiltedThree(ts[0], ts[1], ts[2]);
    } else {
      assert ts == [ts[0], ts[1], ts[2], ts[3]];
      TiltedAll(ts[0], ts[1], ts[2], ts[3]);
    }
  }

  /** Merged tiles `m` pushed against row 3 of a four-row column. */
  lemma PaddedToFour(m: seq<int>)
    requires |m| <= 4
    ensures |m| == 1 ==> Zeros(3) + m == [0, 0, 0, m[0]]
    ensures |m| == 2 ==> Zeros(2) + m == [0, 0, m[0], m[1]]
    ensures |m| == 3 ==> Zeros(1) + m == [0, m[0], m[1], m[2]]
    ensures |m| == 4 ==> Zeros(0) + m == [m[0], m[1], m[2], m[3]]
  {
    assert Zeros(0) == [] && Zeros(1) == [0] && Zeros(2) == [0, 0] && Zeros(3) == [0, 0, 0];
  }

  lemma TiltedTwo(a: int, b: int)
    ensures Zeros(4 - |Merged([a, b])|) + Merged([a, b]) == TiltedFour([a, b])
    ensures Gain([a, b]) == GainedFour([a, b])
  {
    MergedOfTwo(a, b);
    PaddedToFour(Merged([a, b]));
  }

  lemma TiltedThree(a: int, b: int, c: int)
    ensures Zeros(4 - |Merged([a, b, c])|) + Merged([a, b, c]) == TiltedFour([a, b, c])
    ensures Gain([a, b, c]) == GainedFour([a, b, c])
  {
    MergedOfThree(a, b, c);
    PaddedToFour(Merged([a, b, c]));
  }

  lemma TiltedAll(a: int, b: int, c: int, d: int)
    ensures Zeros(4 - |Merged([a, b, c, d])|) + Merged([a, b, c, d]) == TiltedFour([a, b, c, d])
    ensures Gain([a, b, c, d]) == GainedFour([a, b, c, d])
  {
    MergedOfFour(a, b, c, d);
    var m := Merged([a, b, c, d]);
    PaddedToFour(m);
    if c == d && a == b {
      assert m == [2 * b, 2 * d];
    } else if c == d {
      assert m == [a, b, 2 * d];
    } else if b == c {
      assert m == [a, 2 * c, d];
    } else if a == b {
      assert m == [2 * b, c, d];
    } else {
      assert m == [a, b, c, d];
    }
  }

  // ---------------------------------------------------------------------
  // Properties of the merge pass

  /** Every merge turns two tiles into one. */
  lemma {:induction false} MergedCount(ts: seq<int>)
    ensures |Merged(ts)| + Merges(ts) == |ts|
    decreases |ts|
  {
    var n := |ts|;
    if n >= 2 {
      if ts[n - 2] == ts[n - 1] {
        MergedCount(ts[..n - 2]);
      } else {
        MergedCount(ts[..n - 1]);
      }
    }
  }

  /** The merge pass merges nothing exactly when no two neighbours are equal. */
  lemma {:induction false} NoMergeIff(ts: seq<int>)
    ensures Merges(ts) == 0 <==> NoEqualNeighbours(ts)
    decreases |ts|
  {
    var n := |ts|;
    if n >= 2 {
      if ts[n - 2] == ts[n - 1] {
        assert !NoEqualNeighbours(ts);
      } else {
        var p := ts[..n - 1];
        NoMergeIff(p);
        assert NoEqualNeighbours(ts) <==> NoEqualNeighbours(p) by {
          if NoEqualNeighbours(p) {
            forall k | 0 <= k < n - 1 ensures ts[k] != ts[k + 1] {
              if k < n - 2 { assert ts[k] == p[k] && ts[k + 1] == p[k + 1]; }
            }
          }
          if NoEqualNeighbours(ts) {
            forall k | 0 <= k < |p| - 1 ensures p[k] != p[k + 1] {
              assert p[k] == ts[k] && p[k + 1] == ts[k + 1];
            }
          }
        }
      }
    }
  }

  /** Tiles with no equal neighbours pass through the merge pass untouched. */
  lemma {:induction false} MergedIdentity(ts: seq<int>)
    requires NoEqualNeighbours(ts)
    ensures Merged(ts) == ts
    decreases |ts|
  {
    var n := |ts|;
    if n >= 2 {
      var p := ts[..n - 1];
      assert ts[n - 2] != ts[n - 1];
      assert NoEqualNeighbours(p) by {
        forall k | 0 <= k < |p| - 1 ensures p[k] != p[k + 1] {
          assert p[k] == ts[k] && p[k + 1] == ts[k + 1];
        }
      }
      MergedIdentity(p);
      assert ts == p + [ts[n - 1]];
    }
  }

  /** Bounds that follow from each tile merging at most once (`MergedFuses`
      states where each resulting tile comes from): there are at least half
      as many resulting tiles as original ones, and none exceeds twice the
      largest original. */
  lemma {:induction false} MergedAtMostOnce(ts: seq<int>, bound: int)
    requires AllTiles(ts)
    requires forall k :: 0 <= k < |ts| ==> ts[k] <= bound
    ensures |ts| <= 2 * |Merged(ts)|
    ensures forall k :: 0 <= k < |Merged(ts)| ==> Merged(ts)[k] <= 2 * bound
    decreases |ts|
  {
    var n := |ts|;
    if n >= 2 {
      if ts[n - 2] == ts[n - 1] {
        MergedAtMostOnce(ts[..n - 2], bound);
      } else {
        MergedAtMostOnce(ts[..n - 1], bound);
      }
    }
  }

  /** `m` is `ts` with some of its tiles taken together: read from the edge
      end, each tile of `m` is either one tile of `ts` as it is, or the sum
      of two equal neighbouring tiles of `ts`. Every tile of `ts` is used
      exactly once. */
  predicate FusesTo(ts: seq<int>, m: seq<int>)
    decreases |ts|
  {
    var n, k := |ts|, |m|;
    if n == 0 then k == 0
    else
      k > 0 &&
      ((m[k - 1] == ts[n - 1] && FusesTo(ts[..n - 1], m[..k - 1])) ||
       (n >= 2 && ts[n - 2] == ts[n - 1] && m[k - 1] == ts[n - 2] + ts[n - 1] &&
        FusesTo(ts[..n - 2], m[..k - 1])))
  }

  /** Where each merged tile comes from: every tile of the merge pass's
      result is one original tile, or the sum of a pair of equal neighbours,
      and no original tile is used twice. */
  lemma {:induction false} MergedFuses(ts: seq<int>)
    ensures FusesTo(ts, Merged(ts))
    decreases |ts|
  {
    var n, m := |ts|, Merged(ts);
    if n == 1 {
      assert FusesTo(ts[..0], m[..0]);
    } else if n >= 2 {
      if ts[n - 2] == ts[n - 1] {
        MergedFuses(ts[..n - 2]);
        assert m[..|m| - 1] == Merged(ts[..n - 2]);
      } else {
        MergedFuses(ts[..n - 1]);
        assert m[..|m| - 1] == Merged(ts[..n - 1]);
      }
    }
  }

  /** The merge pass keeps the total value of the tiles. */
  lemma {:induction false} MergedSum(ts: seq<int>)
    ensures Sum(Merged(ts)) == Sum(ts)
    decreases |ts|
  {
    var n := |ts|;
    if n >= 2 {
      var m := Merged(ts);
      assert Sum(ts) == Sum(ts[..n - 1]) + ts[n - 1];
      if ts[n - 2] == ts[n - 1] {
        MergedSum(ts[..n - 2]);
        assert ts[..n - 1][..n - 2] == ts[..n - 2];
        assert m[..|m| - 1] == Merged(ts[..n - 2]);
      } else {
        MergedSum(ts[..n - 1]);
        assert m[..|m| - 1] == Merged(ts[..n - 1]);
      }
    }
  }

  /** Each merge of positive tiles scores at least 2, and without a merge
      nothing is scored; the score never exceeds the value merged. */
  lemma {:induction false} GainBounds(ts: seq<int>)
    requires AllTiles(ts)
    ensures 2 * Merges(ts) <= Gain(ts) <= Sum(ts)
    ensures Merges(ts) == 0 ==> Gain(ts) == 0
    decreases |ts|
  {
    var n := |ts|;
    if n >= 2 {
      assert Sum(ts) == Sum(ts[..n - 1]) + ts[n - 1];
      if ts[n - 2] == ts[n - 1] {
        GainBounds(ts[..n - 2]);
        assert ts[..n - 1][..n - 2] == ts[..n - 2];
        assert Sum(ts[..n - 1]) == Sum(ts[..n - 2]) + ts[n - 2];
      } else {
        GainBounds(ts[..n - 1]);
      }
    } else if n == 1 {
      assert ts[..0] == [];
    }
  }

  // ---------------------------------------------------------------------
  // Packing

  lemma {:induction false} TilesOfZeros(k: nat)
    ensures Tiles(Zeros(k)) == []
  {
    if k > 0 {
      assert Zeros(k)[..k - 1] == Zeros(k - 1);
      TilesOfZeros(k - 1);
    }
  }

  /** Reading the tiles back from a packed column gives the packed tiles. */
  lemma {:induction false} TilesOfPacked(k: nat, m: seq<int>)
    requires AllTiles(m)
    ensures Tiles(Zeros(k) + m) == m
    decreases |m|
  {
    if m == [] {
      assert Zeros(k) + m == Zeros(k);
      TilesOfZeros(k);
    } else {
      var p := m[..|m| - 1];
      var s := Zeros(k) + m;
      assert s[..|s| - 1] == Zeros(k) + p;
      TilesOfPacked(k, p);
      assert m == p + [m[|m| - 1]];
    }
  }

  /** A packed column is its empty slots followed by its tiles. */
  lemma PackedForm(col: seq<int>)
    requires NonNeg(col) && Packed(col)
    ensures col == Zeros(|col| - |Tiles(col)|) + Tiles(col)
  {
    var n := |col|;
    var j := 0;
    while j < n && col[j] == 0
      invariant 0 <= j <= n
      invariant forall k :: 0 <= k < j ==> col[k] == 0
    {
      j := j + 1;
    }
    var ts := col[j..];
    assert AllTiles(ts) by {
      forall k | 0 <= k < |ts| ensures ts[k] > 0 {
        assert col[j + k] == ts[k];
        assert k > 0 ==> col[j] != 0;
      }
    }
    assert col == Zeros(j) + ts;
    TilesOfPacked(j, ts);
  }

  /** After a tilt the column is packed and holds exactly the merged tiles. */
  lemma SlideShape(col: seq<int>)
    requires NonNeg(col)
    ensures Tiles(Slide(col)) == Merged(Tiles(col))
  {
    var m := Merged(Tiles(col));
    TilesAreTiles(col);
    MergedAreTiles(Tiles(col));
    TilesOfPacked(|col| - |m|, m);
  }

  /** A tilt removes one tile per merge and creates none. */
  lemma SlideTileCount(col: seq<int>)
    requires NonNeg(col)
    ensures |Tiles(Slide(col))| == |Tiles(col)| - Merges(Tiles(col))
  {
    SlideShape(col);
    MergedCount(Tiles(col));
  }

  lemma {:induction false} SumOfTiles(col: seq<int>)
    ensures Sum(Tiles(col)) == Sum(col)
    decreases |col|
  {
    if col != [] {
      var n := |col|;
      SumOfTiles(col[..n - 1]);
      var t := Tiles(col[..n - 1]);
      if col[n - 1] != 0 {
        assert (t + [col[n - 1]])[..|t|] == t;
      } else {
        assert t + [] == t;
      }
    }
  }

  lemma {:induction false} SumOfPadded(k: nat, m: seq<int>)
    ensures Sum(Zeros(k) + m) == Sum(m)
    decreases |m| + k
  {
    if m == [] {
      assert Zeros(k) + m == Zeros(k);
      if k > 0 {
        assert Zeros(k)[..k - 1] == Zeros(k - 1) + [];
        SumOfPadded(k - 1, []);
      }
    } else {
      var s := Zeros(k) + m;
      assert s[..|s| - 1] == Zeros(k) + m[..|m| - 1];
      SumOfPadded(k, m[..|m| - 1]);
    }
  }

  /** A tilt neither creates nor destroys value: merging V and V gives 2V. */
  lemma SlideSum(col: seq<int>)
    ensures Sum(Slide(col)) == Sum(col)
  {
    var m := Merged(Tiles(col));
    SumOfPadded(|col| - |m|, m);
    MergedSum(Tiles(col));
    SumOfTiles(col);
  }

  /** A column's tilt scores nothing it should not: never negative, and
      positive exactly when some pair merged. */
  lemma SlideGainSign(col: seq<int>)
    requires NonNeg(col)
    ensures SlideGain(col) >= 0
    ensures SlideGain(col) > 0 <==> Merges(Tiles(col)) > 0
  {
    TilesAreTiles(col);
    GainBounds(Tiles(col));
  }

  /** A tilt leaves a column alone exactly when it is packed toward the edge
      and has no two equal neighbouring tiles. */
  lemma SettledIff(col: seq<int>)
    requires NonNeg(col)
    ensures Slide(col) == col <==> Settled(col)
  {
    var ts := Tiles(col);
    if Settled(col) {
      PackedForm(col);
      NoMergeIff(ts);
      MergedIdentity(ts);
    }
    if Slide(col) == col {
      SlidePacked(col);
      SlideShape(col);
      MergedCount(ts);
      NoMergeIff(ts);
    }
  }

  /** When the two tiles nearest the edge have the same value V, they become
      one tile of value 2V in the edge slot, and the tilt scores 2V on top of
      what the tiles behind the pair score. */
  lemma EdgePairMerges(col: seq<int>)
    requires |Tiles(col)| >= 2
    requires Tiles(col)[|Tiles(col)| - 2] == Tiles(col)[|Tiles(col)| - 1]
    ensures var ts := Tiles(col);
            Slide(col)[|col| - 1] == 2 * ts[|ts| - 1] &&
            SlideGain(col) == Gain(ts[..|ts| - 2]) + 2 * ts[|ts| - 1]
  {
    var ts := Tiles(col);
    var m := Merged(ts);
    assert m == Merged(ts[..|ts| - 2]) + [2 * ts[|ts| - 1]];
    assert Slide(col) == Zeros(|col| - |m|) + m;
  }

  /** Three equal tiles in a row: the two nearest the edge merge and the third
      only moves up (a column [W, V, V, V] by row, V != W, becomes [0, W, V, 2V]). */
  lemma LeadingPairMerges(v: int, w: int)
    requires v > 0 && w > 0 && v != w
    ensures Slide([w, v, v, v]) == [0, w, v, 2 * v]
    ensures SlideGain([w, v, v, v]) == 2 * v
  {
    var col := [w, v, v, v];
    TilesOfFour(col);
    assert Tiles(col) == col;
    MergedOfFour(w, v, v, v);
    assert Merged(Tiles(col)) == [w, v, 2 * v];
    assert Zeros(1) == [0];
  }

  /** Four equal tiles merge pairwise, never into one tile of four times the value. */
  lemma FourEqualMergePairwise(v: int)
    requires v > 0
    ensures Slide([v, v, v, v]) == [0, 0, 2 * v, 2 * v]
    ensures SlideGain([v, v, v, v]) == 4 * v
  {
    var col := [v, v, v, v];
    TilesOfFour(col);
    assert Tiles(col) == col;
    MergedOfFour(v, v, v, v);
    assert Merged(Tiles(col)) == [2 * v, 2 * v];
    assert Zeros(2) == [0, 0];
  }

  /** Rows 0..3 holding 2, 2, 2, 4: the 4 stays, the upper pair of 2s merges,
      the lowest 2 moves up; 4 points are scored. */
  lemma TwoTwoTwoFour()
    ensures Slide([2, 2, 2, 4]) == [0, 2, 4, 4]
    ensures SlideGain([2, 2, 2, 4]) == 4
  {
    var col := [2, 2, 2, 4];
    TilesOfFour(col);
    assert Tiles(col) == col;
    MergedOfFour(2, 2, 2, 4);
    assert Zeros(1) == [0];
  }
}
