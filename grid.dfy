/** The square board as a value, the four viewing perspectives, and the
    read-only questions the game asks of a board. */
module Grid {
  import opened Column

  /** A board of side n: n columns of n slots, `g[c][r]` the slot in column c
      and row r, (0, 0) the lower-left corner. 0 is an empty slot. */
  type Grid = seq<seq<int>>

  /** The value of the winning tile. */
  const MAX_PIECE: int := 2048

  predicate IsGrid(g: Grid, n: nat)
  {
    |g| == n && forall c :: 0 <= c < n ==> |g[c]| == n && NonNeg(g[c])
  }

  function EmptyGrid(n: nat): (g: Grid)
    ensures IsGrid(g, n)
    ensures forall c, r :: 0 <= c < n && 0 <= r < n ==> g[c][r] == 0
  {
    seq(n, _ => Zeros(n))
  }

  /** The grid with slot (c, r) set to x. */
  function Set(g: Grid, c: int, r: int, x: int): Grid
    requires 0 <= c < |g| && 0 <= r < |g[c]|
  {
    g[c := g[c][r := x]]
  }

  /** The side of the board the tiles move toward. */
  datatype Side = North | East | South | West

  /** The physical column of logical slot (c, r) when the board of side n is
      viewed so that `s` is up: quarter turns that put logical row n - 1 on
      side `s`. */
  function PCol(s: Side, n: int, c: int, r: int): int
  {
    match s
    case North => c
    case East => r
    case South => n - 1 - c
    case West => n - 1 - r
  }

  function PRow(s: Side, n: int, c: int, r: int): int
  {
    match s
    case North => r
    case East => n - 1 - c
    case South => n - 1 - r
    case West => c
  }

  /** The logical column of physical slot (pc, pr) in the view from `s`. */
  function LCol(s: Side, n: int, pc: int, pr: int): int
  {
    match s
    case North => pc
    case East => n - 1 - pr
    case South => n - 1 - pc
    case West => pr
  }

  function LRow(s: Side, n: int, pc: int, pr: int): int
  {
    match s
    case North => pr
    case East => pc
    case South => n - 1 - pr
    case West => n - 1 - pc
  }

  /** The board as seen from side `s`: logical slot (c, r) shows the physical
      slot (PCol, PRow). */
  function ViewOf(g: Grid, s: Side): (v: Grid)
    requires IsGrid(g, |g|)
    ensures IsGrid(v, |g|)
    ensures forall c, r :: 0 <= c < |g| && 0 <= r < |g| ==>
              v[c][r] == g[PCol(s, |g|, c, r)][PRow(s, |g|, c, r)]
  {
    var n := |g|;
    seq(n, c requires 0 <= c < n =>
      seq(n, r requires 0 <= r < n => g[PCol(s, n, c, r)][PRow(s, n, c, r)]))
  }

  /** The physical board of which `v` is the view from `s`. */
  function Unview(v: Grid, s: Side): (g: Grid)
    requires IsGrid(v, |v|)
    ensures IsGrid(g, |v|)
    ensures forall pc, pr :: 0 <= pc < |v| && 0 <= pr < |v| ==>
              g[pc][pr] == v[LCol(s, |v|, pc, pr)][LRow(s, |v|, pc, pr)]
  {
    var n := |v|;
    seq(n, pc requires 0 <= pc < n =>
      seq(n, pr requires 0 <= pr < n => v[LCol(s, n, pc, pr)][LRow(s, n, pc, pr)]))
  }

  /** Viewing and un-viewing are inverse: a perspective is a change of
      coordinates, never a change of contents. */
  lemma UnviewView(g: Grid, s: Side)
    requires IsGrid(g, |g|)
    ensures Unview(ViewOf(g, s), s) == g
  {
    var n := |g|;
    var u := Unview(ViewOf(g, s), s);
    forall pc | 0 <= pc < n ensures u[pc] == g[pc] {
      forall pr | 0 <= pr < n ensures u[pc][pr] == g[pc][pr] {
        LogicalInBounds(s, n, pc, pr);
      }
    }
  }

  lemma ViewUnview(v: Grid, s: Side)
    requires IsGrid(v, |v|)
    ensures ViewOf(Unview(v, s), s) == v
  {
    var n := |v|;
    var w := ViewOf(Unview(v, s), s);
    forall c | 0 <= c < n ensures w[c] == v[c] {
      forall r | 0 <= r < n ensures w[c][r] == v[c][r] {
        PhysicalInBounds(s, n, c, r);
      }
    }
  }

  /** Viewed from the north, the board is its physical layout. */
  lemma ViewNorth(g: Grid)
    requires IsGrid(g, |g|)
    ensures ViewOf(g, North) == g
  {
    var v := ViewOf(g, North);
    forall c | 0 <= c < |g| ensures v[c] == g[c] {
      assert forall r :: 0 <= r < |g| ==> v[c][r] == g[c][r];
    }
  }

  /** Writing a logical slot writes the physical slot behind it. */
  lemma UnviewSet(v: Grid, s: Side, c: int, r: int, x: int)
    requires IsGrid(v, |v|) && 0 <= c < |v| && 0 <= r < |v| && x >= 0
    ensures IsGrid(Set(v, c, r, x), |v|)
    ensures Unview(Set(v, c, r, x), s) == Set(Unview(v, s), PCol(s, |v|, c, r), PRow(s, |v|, c, r), x)
  {
    var n := |v|;
    var pc, pr := PCol(s, n, c, r), PRow(s, n, c, r);
    PhysicalInBounds(s, n, c, r);
    var w := Set(v, c, r, x);
    assert IsGrid(w, n);
    var lhs, rhs := Unview(w, s), Set(Unview(v, s), pc, pr, x);
    forall pc' | 0 <= pc' < n ensures lhs[pc'] == rhs[pc'] {
      forall pr' | 0 <= pr' < n ensures lhs[pc'][pr'] == rhs[pc'][pr'] {
        LogicalInBounds(s, n, pc', pr');
      }
    }
  }

  /** An empty board looks empty from every side. */
  lemma UnviewEmpty(n: nat, s: Side)
    ensures Unview(EmptyGrid(n), s) == EmptyGrid(n)
  {
    var u := Unview(EmptyGrid(n), s);
    forall pc | 0 <= pc < n ensures u[pc] == EmptyGrid(n)[pc] {
      forall pr | 0 <= pr < n ensures u[pc][pr] == 0 {
        LogicalInBounds(s, n, pc, pr);
      }
    }
  }

  // ---------------------------------------------------------------------
  // The game-over questions

  predicate InBounds(g: Grid, c: int, r: int)
  {
    0 <= c < |g| && 0 <= r < |g[c]|
  }

  /** Orthogonal neighbours on the board, without wrapping around an edge. */
  predicate Adjacent(c: int, r: int, c2: int, r2: int)
  {
    (c == c2 && (r2 == r + 1 || r == r2 + 1)) || (r == r2 && (c2 == c + 1 || c == c2 + 1))
  }

  ghost predicate HasEmptySlot(g: Grid)
  {
    exists c, r :: InBounds(g, c, r) && g[c][r] == 0
  }

  ghost predicate HasMaxTile(g: Grid)
  {
    exists c, r :: InBounds(g, c, r) && g[c][r] == MAX_PIECE
  }

  /** Two orthogonally adjacent tiles of equal value. */
  ghost predicate HasEqualNeighbours(g: Grid)
  {
    exists c, r, c2, r2 ::
      InBounds(g, c, r) && InBounds(g, c2, r2) && Adjacent(c, r, c2, r2) &&
      g[c][r] != 0 && g[c][r] == g[c2][r2]
  }

  /** Some tilt can still change the board. */
  ghost predicate HasMove(g: Grid)
  {
    HasEmptySlot(g) || HasEqualNeighbours(g)
  }

  /** The game has ended: won, or no move is left. */
  ghost predicate IsOver(g: Grid)
  {
    HasMaxTile(g) || !HasMove(g)
  }

  /** Slot (c, r) has an equal neighbour in one of the four directions,
      checked the way the game scans a full board. */
  predicate EqualNeighbourAt(g: Grid, c: int, r: int)
    requires IsGrid(g, |g|) && 0 <= c < |g| && 0 <= r < |g|
  {
    var n := |g|;
    (r + 1 < n && g[c][r + 1] == g[c][r]) ||
    (r - 1 >= 0 && g[c][r - 1] == g[c][r]) ||
    (c - 1 >= 0 && g[c - 1][r] == g[c][r]) ||
    (c + 1 < n && g[c + 1][r] == g[c][r])
  }

  /** On a full board, the four-direction scan finds exactly the equal
      neighbouring tiles. */
  lemma EqualNeighbourScan(g: Grid)
    requires IsGrid(g, |g|) && !HasEmptySlot(g)
    ensures HasEqualNeighbours(g) <==>
            exists c, r :: 0 <= c < |g| && 0 <= r < |g| && EqualNeighbourAt(g, c, r)
  {
    var n := |g|;
    if HasEqualNeighbours(g) {
      var c, r, c2, r2 :| InBounds(g, c, r) && InBounds(g, c2, r2) && Adjacent(c, r, c2, r2) &&
                          g[c][r] != 0 && g[c][r] == g[c2][r2];
      assert EqualNeighbourAt(g, c, r);
    }
    if exists c, r :: 0 <= c < n && 0 <= r < n && EqualNeighbourAt(g, c, r) {
      var c, r :| 0 <= c < n && 0 <= r < n && EqualNeighbourAt(g, c, r);
      assert g[c][r] != 0 by { assert InBounds(g, c, r); }
      if r + 1 < n && g[c][r + 1] == g[c][r] {
        assert InBounds(g, c, r + 1) && Adjacent(c, r, c, r + 1);
      } else if r - 1 >= 0 && g[c][r - 1] == g[c][r] {
        assert InBounds(g, c, r - 1) && Adjacent(c, r, c, r - 1);
      } else if c - 1 >= 0 && g[c - 1][r] == g[c][r] {
        assert InBounds(g, c - 1, r) && Adjacent(c, r, c - 1, r);
      } else {
        assert InBounds(g, c + 1, r) && Adjacent(c, r, c + 1, r);
      }
    }
  }

  /** The physical slot behind a logical one, and back. */
  lemma PhysicalInBounds(s: Side, n: int, c: int, r: int)
    requires 0 <= c < n && 0 <= r < n
    ensures 0 <= PCol(s, n, c, r) < n && 0 <= PRow(s, n, c, r) < n
    ensures LCol(s, n, PCol(s, n, c, r), PRow(s, n, c, r)) == c
    ensures LRow(s, n, PCol(s, n, c, r), PRow(s, n, c, r)) == r
  {
  }

  lemma LogicalInBounds(s: Side, n: int, pc: int, pr: int)
    requires 0 <= pc < n && 0 <= pr < n
    ensures 0 <= LCol(s, n, pc, pr) < n && 0 <= LRow(s, n, pc, pr) < n
    ensures PCol(s, n, LCol(s, n, pc, pr), LRow(s, n, pc, pr)) == pc
    ensures PRow(s, n, LCol(s, n, pc, pr), LRow(s, n, pc, pr)) == pr
  {
  }

  /** The game-over questions do not depend on the perspective the board is
      viewed from: a quarter turn keeps slots, values and adjacency. */
  lemma EmptySlotIgnoresView(g: Grid, s: Side)
    requires IsGrid(g, |g|)
    ensures HasEmptySlot(ViewOf(g, s)) == HasEmptySlot(g)
  {
    var n := |g|;
    var v := ViewOf(g, s);
    if HasEmptySlot(v) {
      var c, r :| InBounds(v, c, r) && v[c][r] == 0;
      PhysicalInBounds(s, n, c, r);
      assert InBounds(g, PCol(s, n, c, r), PRow(s, n, c, r));
    }
    if HasEmptySlot(g) {
      var pc, pr :| InBounds(g, pc, pr) && g[pc][pr] == 0;
      LogicalInBounds(s, n, pc, pr);
      assert InBounds(v, LCol(s, n, pc, pr), LRow(s, n, pc, pr));
    }
  }

  lemma MaxTileIgnoresView(g: Grid, s: Side)
    requires IsGrid(g, |g|)
    ensures HasMaxTile(ViewOf(g, s)) == HasMaxTile(g)
  {
    var n := |g|;
    var v := ViewOf(g, s);
    if HasMaxTile(v) {
      var c, r :| InBounds(v, c, r) && v[c][r] == MAX_PIECE;
      PhysicalInBounds(s, n, c, r);
      assert InBounds(g, PCol(s, n, c, r), PRow(s, n, c, r));
    }
    if HasMaxTile(g) {
      var pc, pr :| InBounds(g, pc, pr) && g[pc][pr] == MAX_PIECE;
      LogicalInBounds(s, n, pc, pr);
      assert InBounds(v, LCol(s, n, pc, pr), LRow(s, n, pc, pr));
    }
  }

  /** A quarter turn maps neighbours to neighbours, in both directions. */
  lemma AdjacentPhysical(s: Side, n: int, c: int, r: int, c2: int, r2: int)
    requires Adjacent(c, r, c2, r2)
    ensures Adjacent(PCol(s, n, c, r), PRow(s, n, c, r), PCol(s, n, c2, r2), PRow(s, n, c2, r2))
  {
  }

  lemma AdjacentLogical(s: Side, n: int, pc: int, pr: int, pc2: int, pr2: int)
    requires Adjacent(pc, pr, pc2, pr2)
    ensures Adjacent(LCol(s, n, pc, pr), LRow(s, n, pc, pr), LCol(s, n, pc2, pr2), LRow(s, n, pc2, pr2))
  {
  }

  lemma EqualNeighboursFromView(g: Grid, s: Side)
    requires IsGrid(g, |g|) && HasEqualNeighbours(ViewOf(g, s))
    ensures HasEqualNeighbours(g)
  {
    var n := |g|;
    var v := ViewOf(g, s);
    var c, r, c2, r2 :| InBounds(v, c, r) && InBounds(v, c2, r2) && Adjacent(c, r, c2, r2) &&
                        v[c][r] != 0 && v[c][r] == v[c2][r2];
    PhysicalInBounds(s, n, c, r);
    PhysicalInBounds(s, n, c2, r2);
    AdjacentPhysical(s, n, c, r, c2, r2);
    var pc, pr := PCol(s, n, c, r), PRow(s, n, c, r);
    var pc2, pr2 := PCol(s, n, c2, r2), PRow(s, n, c2, r2);
    assert InBounds(g, pc, pr) && InBounds(g, pc2, pr2) && Adjacent(pc, pr, pc2, pr2);
    assert g[pc][pr] != 0 && g[pc][pr] == g[pc2][pr2];
  }

  lemma EqualNeighboursToView(g: Grid, s: Side)
    requires IsGrid(g, |g|) && HasEqualNeighbours(g)
    ensures HasEqualNeighbours(ViewOf(g, s))
  {
    var n := |g|;
    var v := ViewOf(g, s);
    var pc, pr, pc2, pr2 :| InBounds(g, pc, pr) && InBounds(g, pc2, pr2) && Adjacent(pc, pr, pc2, pr2) &&
                            g[pc][pr] != 0 && g[pc][pr] == g[pc2][pr2];
    LogicalInBounds(s, n, pc, pr);
    LogicalInBounds(s, n, pc2, pr2);
    AdjacentLogical(s, n, pc, pr, pc2, pr2);
    var c, r := LCol(s, n, pc, pr), LRow(s, n, pc, pr);
    var c2, r2 := LCol(s, n, pc2, pr2), LRow(s, n, pc2, pr2);
    assert InBounds(v, c, r) && InBounds(v, c2, r2) && Adjacent(c, r, c2, r2);
    assert v[c][r] != 0 && v[c][r] == v[c2][r2];
  }

  lemma EqualNeighboursIgnoreView(g: Grid, s: Side)
    requires IsGrid(g, |g|)
    ensures HasEqualNeighbours(ViewOf(g, s)) == HasEqualNeighbours(g)
  {
    if HasEqualNeighbours(ViewOf(g, s)) { EqualNeighboursFromView(g, s); }
    if HasEqualNeighbours(g) { EqualNeighboursToView(g, s); }
  }

  /** Whether the game is over is the same in every perspective. */
  lemma IsOverIgnoresView(g: Grid, s: Side)
    requires IsGrid(g, |g|)
    ensures IsOver(ViewOf(g, s)) == IsOver(g)
  {
    EmptySlotIgnoresView(g, s);
    MaxTileIgnoresView(g, s);
    EqualNeighboursIgnoreView(g, s);
  }
}
