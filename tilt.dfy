/** A whole-board tilt: every column of the board, as seen from the side the
    tiles move toward, goes through the column rule on its own. */
module Tilt {
  import opened Column
  import opened Grid

  /** Every column of a (viewed) board after the tilt. */
  function SlideAll(v: Grid): (w: Grid)
    requires IsGrid(v, |v|)
    ensures IsGrid(w, |v|)
    ensures forall c :: 0 <= c < |v| ==> w[c] == Slide(v[c])
  {
    forall c | 0 <= c < |v| ensures NonNeg(Slide(v[c])) {
      SlidePacked(v[c]);
    }
    seq(|v|, c requires 0 <= c < |v| => Slide(v[c]))
  }

  /** The view part-way through a tilt: columns 0 .. k-1 tilted, the others
      as they were. */
  function SlidPrefix(v: Grid, k: nat): (w: Grid)
    requires IsGrid(v, |v|) && k <= |v|
    ensures |w| == |v|
  {
    seq(|v|, c requires 0 <= c < |v| => if c < k then Slide(v[c]) else v[c])
  }

  lemma SlidPrefixNone(v: Grid)
    requires IsGrid(v, |v|)
    ensures SlidPrefix(v, 0) == v
  {
  }

  lemma SlidPrefixAll(v: Grid)
    requires IsGrid(v, |v|)
    ensures SlidPrefix(v, |v|) == SlideAll(v)
  {
  }

  /** Tilting column k of the view with columns 0 .. k-1 tilted gives the
      view with columns 0 .. k tilted. */
  lemma SlidPrefixStep(v: Grid, k: nat, w: Grid)
    requires IsGrid(v, |v|) && k < |v| && |w| == |v|
    requires w[k] == Slide(v[k])
    requires forall c :: 0 <= c < |v| && c != k ==> w[c] == SlidPrefix(v, k)[c]
    ensures w == SlidPrefix(v, k + 1)
  {
  }

  /** Whether the tilt changes some column among 0 .. k-1. */
  function AnyMoved(v: Grid, k: nat): bool
    requires k <= |v|
  {
    k > 0 && (AnyMoved(v, k - 1) || Slide(v[k - 1]) != v[k - 1])
  }

  lemma {:induction false} AnyMovedIff(v: Grid, k: nat)
    requires k <= |v|
    ensures AnyMoved(v, k) <==> exists c :: 0 <= c < k && Slide(v[c]) != v[c]
  {
    if k > 0 {
      AnyMovedIff(v, k - 1);
    }
  }

  /** The points scored by the tilts of columns 0 .. k-1. */
  function GainOf(v: Grid, k: nat): int
    requires k <= |v|
  {
    if k == 0 then 0 else GainOf(v, k - 1) + SlideGain(v[k - 1])
  }

  /** The number of tiles in columns 0 .. k-1. */
  function TileCountOf(v: Grid, k: nat): nat
    requires k <= |v|
  {
    if k == 0 then 0 else TileCountOf(v, k - 1) + |Tiles(v[k - 1])|
  }

  /** The number of merges the tilts of columns 0 .. k-1 perform. */
  function MergeCountOf(v: Grid, k: nat): nat
    requires k <= |v|
  {
    if k == 0 then 0 else MergeCountOf(v, k - 1) + Merges(Tiles(v[k - 1]))
  }

  /** The total value of the tiles in columns 0 .. k-1. */
  function ValueOf(v: Grid, k: nat): int
    requires k <= |v|
  {
    if k == 0 then 0 else ValueOf(v, k - 1) + Sum(v[k - 1])
  }

  /** The physical board after tilting `g` toward side `s`. */
  function TiltGrid(g: Grid, s: Side): (t: Grid)
    requires IsGrid(g, |g|)
    ensures IsGrid(t, |g|)
  {
    Unview(SlideAll(ViewOf(g, s)), s)
  }

  /** The points tilting `g` toward side `s` scores. */
  function TiltGain(g: Grid, s: Side): int
    requires IsGrid(g, |g|)
  {
    GainOf(ViewOf(g, s), |g|)
  }

  /** Seen from the side it was tilted toward, the tilted board is the
      column rule applied to every column. */
  lemma TiltView(g: Grid, s: Side)
    requires IsGrid(g, |g|)
    ensures ViewOf(TiltGrid(g, s), s) == SlideAll(ViewOf(g, s))
  {
    ViewUnview(SlideAll(ViewOf(g, s)), s);
  }

  /** A tilt changes nothing exactly when every column, seen from the side
      tilted toward, is packed against that side with no two equal
      neighbouring tiles. */
  lemma TiltNoOpIff(g: Grid, s: Side)
    requires IsGrid(g, |g|)
    ensures TiltGrid(g, s) == g <==>
            forall c :: 0 <= c < |g| ==> Settled(ViewOf(g, s)[c])
  {
    var v := ViewOf(g, s);
    if TiltGrid(g, s) == g {
      TiltView(g, s);
      forall c | 0 <= c < |g| ensures Settled(v[c]) {
        assert Slide(v[c]) == v[c];
        SettledIff(v[c]);
      }
    }
    if forall c :: 0 <= c < |g| ==> Settled(v[c]) {
      forall c | 0 <= c < |g| ensures SlideAll(v)[c] == v[c] {
        SettledIff(v[c]);
      }
      assert SlideAll(v) == v;
      UnviewView(g, s);
    }
  }

  /** A tilt changes the board exactly when it changes some column of the
      view from the side tilted toward. */
  lemma TiltChangedIff(g: Grid, s: Side)
    requires IsGrid(g, |g|)
    ensures TiltGrid(g, s) != g <==>
            exists c :: 0 <= c < |g| && Slide(ViewOf(g, s)[c]) != ViewOf(g, s)[c]
  {
    var v := ViewOf(g, s);
    if TiltGrid(g, s) == g {
      TiltView(g, s);
      assert forall c :: 0 <= c < |g| ==> Slide(v[c]) == SlideAll(v)[c];
    } else if forall c :: 0 <= c < |g| ==> Slide(v[c]) == v[c] {
      assert SlideAll(v) == v;
      UnviewView(g, s);
    }
  }

  lemma {:induction false} GainOfBounds(v: Grid, k: nat)
    requires IsGrid(v, |v|) && k <= |v|
    ensures GainOf(v, k) >= 0
    ensures GainOf(v, k) > 0 <==> MergeCountOf(v, k) > 0
  {
    if k > 0 {
      GainOfBounds(v, k - 1);
      SlideGainSign(v[k - 1]);
    }
  }

  /** Settled columns score nothing. */
  lemma {:induction false} SettledNoGain(v: Grid, k: nat)
    requires IsGrid(v, |v|) && k <= |v|
    requires forall c :: 0 <= c < k ==> Settled(v[c])
    ensures GainOf(v, k) == 0
  {
    if k > 0 {
      var col := v[k - 1];
      SettledNoGain(v, k - 1);
      NoMergeIff(Tiles(col));
      TilesAreTiles(col);
      GainBounds(Tiles(col));
    }
  }

  /** A tilt that changes nothing scores nothing. */
  lemma NoOpNoGain(g: Grid, s: Side)
    requires IsGrid(g, |g|)
    ensures TiltGrid(g, s) == g ==> TiltGain(g, s) == 0
  {
    if TiltGrid(g, s) == g {
      TiltNoOpIff(g, s);
      SettledNoGain(ViewOf(g, s), |g|);
    }
  }

  /** A tilt never lowers the score, and raises it exactly when some pair
      of tiles merged. */
  lemma TiltGainSign(g: Grid, s: Side)
    requires IsGrid(g, |g|)
    ensures TiltGain(g, s) >= 0
    ensures TiltGain(g, s) > 0 <==> MergeCountOf(ViewOf(g, s), |g|) > 0
  {
    GainOfBounds(ViewOf(g, s), |g|);
  }

  lemma {:induction false} TileCountOfSlid(v: Grid, k: nat)
    requires IsGrid(v, |v|) && k <= |v|
    ensures TileCountOf(SlideAll(v), k) == TileCountOf(v, k) - MergeCountOf(v, k)
  {
    if k > 0 {
      var w := SlideAll(v);
      var col := v[k - 1];
      assert NonNeg(col);
      TileCountOfSlid(v, k - 1);
      SlideTileCount(col);
      assert w[k - 1] == Slide(col);
      MergedCount(Tiles(col));
    }
  }

  lemma {:induction false} ValueOfSameSums(v: Grid, w: Grid, k: nat)
    requires k <= |v| && k <= |w|
    requires forall c :: 0 <= c < k ==> Sum(w[c]) == Sum(v[c])
    ensures ValueOf(w, k) == ValueOf(v, k)
  {
    if k > 0 {
      ValueOfSameSums(v, w, k - 1);
    }
  }

  lemma ValueOfSlid(v: Grid, k: nat)
    requires IsGrid(v, |v|) && k <= |v|
    ensures ValueOf(SlideAll(v), k) == ValueOf(v, k)
  {
    var w := SlideAll(v);
    forall c | 0 <= c < k ensures Sum(w[c]) == Sum(v[c]) {
      SlideSum(v[c]);
    }
    ValueOfSameSums(v, w, k);
  }

  /** In the frame of the tilt, the board loses one tile per merge, gains
      none, and keeps the total value of its tiles. */
  lemma TiltTileCount(g: Grid, s: Side)
    requires IsGrid(g, |g|)
    ensures var v, w := ViewOf(g, s), ViewOf(TiltGrid(g, s), s);
            TileCountOf(w, |g|) == TileCountOf(v, |g|) - MergeCountOf(v, |g|) &&
            ValueOf(w, |g|) == ValueOf(v, |g|)
  {
    TiltView(g, s);
    TileCountOfSlid(ViewOf(g, s), |g|);
    ValueOfSlid(ViewOf(g, s), |g|);
  }
}
