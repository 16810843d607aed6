/** The board the game engine works on: a square of slots, read and written
    through a viewing perspective. Only the behaviour the engine relies on is
    modelled. */
module Boards {
  import opened Column
  import opened Grid

  /** A tile to be placed: its value and the physical slot it goes to. */
  datatype NewTile = NewTile(value: int, col: int, row: int)

  class Board {
    /** The number of slots on one side. */
    const size: nat
    /** The slots as the current perspective shows them: `view[c][r]` is
        logical slot (c, r), 0 for an empty slot. */
    var view: Grid
    /** The side that logical row size-1 faces. */
    var perspective: Side

    ghost predicate Valid()
      reads this
    {
      IsGrid(view, size)
    }

    /** The slots in physical layout, `Cells()[c][r]`. */
    function Cells(): (g: Grid)
      reads this
      requires Valid()
      ensures IsGrid(g, size)
      ensures ViewOf(g, perspective) == view
    {
      ViewUnview(view, perspective);
      Unview(view, perspective)
    }

    /** An empty board, viewed from the north. */
    constructor (size: nat)
      ensures Valid() && this.size == size && perspective == North
      ensures Cells() == EmptyGrid(size) && view == EmptyGrid(size)
    {
      this.size := size;
      view := EmptyGrid(size);
      perspective := North;
      new;
      UnviewEmpty(size, North);
    }

    /** A board with the given contents in physical layout, viewed from the
        north. */
    constructor FromGrid(g: Grid)
      requires IsGrid(g, |g|)
      ensures Valid() && size == |g| && perspective == North
      ensures Cells() == g && view == g
    {
      size := |g|;
      view := g;
      perspective := North;
      new;
      ViewNorth(g);
      UnviewView(g, North);
    }

    /** The value at logical slot (c, r), 0 when it is empty. */
    function Tile(c: int, r: int): int
      reads this
      requires Valid() && 0 <= c < size && 0 <= r < size
    {
      view[c][r]
    }

    /** Looks at the same physical board from side `s`. */
    method SetViewingPerspective(s: Side)
      requires Valid()
      modifies this`view, this`perspective
      ensures Valid() && perspective == s
      ensures Cells() == old(Cells())
      ensures view == ViewOf(old(Cells()), s)
    {
      var g := Unview(view, perspective);
      view := ViewOf(g, s);
      perspective := s;
      UnviewView(g, s);
    }

    /** Empties every slot; the perspective stays. */
    method Clear()
      requires Valid()
      modifies this`view
      ensures Valid() && Cells() == EmptyGrid(size) && view == EmptyGrid(size)
    {
      view := EmptyGrid(size);
      UnviewEmpty(size, perspective);
    }

    /** Puts tile `t` in its physical slot, which must be empty. */
    method AddTile(t: NewTile)
      requires Valid()
      requires 0 <= t.col < size && 0 <= t.row < size && t.value > 0
      requires Cells()[t.col][t.row] == 0
      modifies this`view
      ensures Valid() && Cells() == Set(old(Cells()), t.col, t.row, t.value)
    {
      var c, r := LCol(perspective, size, t.col, t.row), LRow(perspective, size, t.col, t.row);
      LogicalInBounds(perspective, size, t.col, t.row);
      UnviewSet(view, perspective, c, r, t.value);
      view := Set(view, c, r, t.value);
    }

    /** Moves the tile at logical slot (fc, fr) to logical slot (c, r) and
        empties (fc, fr). A tile already at (c, r) has the moving tile's value,
        and the two become one tile of twice that value. */
    method Move(c: int, r: int, fc: int, fr: int)
      requires Valid()
      requires 0 <= c < size && 0 <= r < size && 0 <= fc < size && 0 <= fr < size
      requires view[fc][fr] != 0
      requires (c == fc && r == fr) || view[c][r] == 0 || view[c][r] == view[fc][fr]
      modifies this`view
      ensures Valid()
      ensures forall k :: 0 <= k < size && k != c && k != fc ==> view[k] == old(view)[k]
      ensures c == fc ==> view[c] == MoveWithin(old(view)[c], r, fr)
      ensures c != fc ==> view[fc] == old(view)[fc][fr := 0]
      ensures c != fc ==> view[c] == old(view)[c][r := Merge(old(view)[c][r], old(view)[fc][fr])]
    {
      if c != fc || r != fr {
        var merged := Merge(view[c][r], view[fc][fr]);
        view := Set(Set(view, fc, fr, 0), c, r, merged);
      }
    }
  }

  /** The value a slot holds once a tile of value `t` has moved onto it
      while it held `x`. */
  function Merge(x: int, t: int): int
  {
    if x == 0 then t else 2 * t
  }

  /** A column after its tile at row fr has moved to row r. */
  function MoveWithin(col: seq<int>, r: int, fr: int): seq<int>
    requires 0 <= r < |col| && 0 <= fr < |col|
  {
    if r == fr then col else col[fr := 0][r := Merge(col[r], col[fr])]
  }
}
