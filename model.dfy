/** The 2048 rules engine: the state of one game (board, score, best score,
    game-over flag), the tilt that slides and merges tiles, and the
    game-over questions. */
module Game {
  import opened Column
  import opened Grid
  import opened Tilt
  import opened Boards

  function Max(a: int, b: int): int
  {
    if a >= b then a else b
  }

  class Model {
    /** The current contents of the board. */
    const board: Board
    /** The current score. */
    var score: int
    /** The best score so far, brought up to date when a game ends. */
    var maxScore: int
    /** Whether the game has ended. */
    var gameOver: bool

    ghost predicate Valid()
      reads this, board
    {
      board.Valid()
    }

    /** A new game on an empty board of side `size`, score 0. */
    constructor (size: nat)
      ensures Valid() && fresh(board) && board.size == size
      ensures board.Cells() == EmptyGrid(size) && board.perspective == North
      ensures score == 0 && maxScore == 0 && !gameOver
    {
      board := new Board(size);
      score, maxScore := 0, 0;
      gameOver := false;
    }

    /** A game in a given state; the board's contents are given in physical
        layout. */
    constructor FromGrid(g: Grid, score: int, maxScore: int, gameOver: bool)
      requires IsGrid(g, |g|)
      ensures Valid() && fresh(board) && board.Cells() == g && board.perspective == North
      ensures this.score == score && this.maxScore == maxScore && this.gameOver == gameOver
    {
      board := new Board.FromGrid(g);
      this.score := score;
      this.maxScore := maxScore;
      this.gameOver := gameOver;
    }

    /** The value at (c, r) as the board's current perspective shows it:
        the physical slot that the perspective turns (c, r) into. */
    function Tile(c: int, r: int): (t: int)
      reads this, board
      requires Valid() && 0 <= c < board.size && 0 <= r < board.size
      ensures var s, n := board.perspective, board.size;
              t == board.Cells()[PCol(s, n, c, r)][PRow(s, n, c, r)]
      ensures board.perspective == North ==> t == board.Cells()[c][r]
    {
      board.Tile(c, r)
    }

    /** Decides whether the game is over, and if so brings the best score up
        to date. */
    method GameOver() returns (over: bool)
      requires Valid()
      modifies this`gameOver, this`maxScore
      ensures over == gameOver == IsOver(board.view)
      ensures maxScore == if over then Max(score, old(maxScore)) else old(maxScore)
      ensures maxScore >= old(maxScore)
    {
      CheckGameOver();
      if gameOver {
        maxScore := Max(score, maxScore);
      }
      over := gameOver;
    }

    /** Empties the board and starts the score again; the best score stays. */
    method Clear()
      requires Valid()
      modifies this`score, this`gameOver, board`view
      ensures Valid() && board.Cells() == EmptyGrid(board.size)
      ensures score == 0 && !gameOver && maxScore == old(maxScore)
    {
      score := 0;
      gameOver := false;
      board.Clear();
    }

    /** Places `t` in its slot, which must be empty, and re-decides whether
        the game is over. */
    method AddTile(t: NewTile)
      requires Valid()
      requires 0 <= t.col < board.size && 0 <= t.row < board.size && t.value > 0
      requires board.Cells()[t.col][t.row] == 0
      modifies this`gameOver, board`view
      ensures Valid() && board.Cells() == Set(old(board.Cells()), t.col, t.row, t.value)
      ensures gameOver == IsOver(board.Cells())
    {
      board.AddTile(t);
      CheckGameOver();
      IsOverIgnoresView(board.Cells(), board.perspective);
    }

    /** Tilts the board toward `side` and reports whether anything moved;
        the board is left viewed from the north afterwards. */
    method Tilt(side: Side) returns (changed: bool)
      requires Valid() && board.size == 4
      modifies this`score, this`gameOver, board`view, board`perspective
      ensures Valid()
      ensures board.Cells() == TiltGrid(old(board.Cells()), side)
      ensures score == old(score) + TiltGain(old(board.Cells()), side)
      ensures changed == (board.Cells() != old(board.Cells()))
      ensures !changed ==> score == old(score)
      ensures gameOver == IsOver(board.Cells())
      ensures board.perspective == North && board.view == board.Cells()
    {
      NoOpNoGain(board.Cells(), side);
      changed := TiltColumns(side);
      board.SetViewingPerspective(North);
      ViewNorth(board.Cells());
    }

    /** The tilt as the engine writes it: the north perspective is put back
        only when the tilt changed the board, so after a tilt that changed
        nothing the board is still viewed from `side`. */
    method TiltAsWritten(side: Side) returns (changed: bool)
      requires Valid() && board.size == 4
      modifies this`score, this`gameOver, board`view, board`perspective
      ensures Valid()
      ensures board.Cells() == TiltGrid(old(board.Cells()), side)
      ensures score == old(score) + TiltGain(old(board.Cells()), side)
      ensures changed == (board.Cells() != old(board.Cells()))
      ensures !changed ==> score == old(score)
      ensures gameOver == IsOver(board.Cells())
      ensures board.perspective == if changed then North else side
    {
      NoOpNoGain(board.Cells(), side);
      changed := TiltColumns(side);
      if changed {
        board.SetViewingPerspective(North);
      }
    }

    /** Everything a tilt does before the perspective is put back: view the
        board from `side`, run every column through the column rule, and
        re-decide whether the game is over. */
    method TiltColumns(side: Side) returns (changed: bool)
      requires Valid() && board.size == 4
      modifies this`score, this`gameOver, board`view, board`perspective
      ensures Valid() && board.perspective == side
      ensures board.Cells() == TiltGrid(old(board.Cells()), side)
      ensures score == old(score) + TiltGain(old(board.Cells()), side)
      ensures changed == (board.Cells() != old(board.Cells()))
      ensures gameOver == IsOver(board.Cells())
    {
      board.SetViewingPerspective(side);
      changed := TiltEveryColumn();
      assert board.perspective == side;
      TiltChangedIff(old(board.Cells()), side);
      CheckGameOver();
      IsOverIgnoresView(board.Cells(), side);
    }

    /** The loop over the columns of the current view, each tilted toward
        row 3 on its own; reports whether any column changed. */
    method TiltEveryColumn() returns (changed: bool)
      requires Valid() && board.size == 4
      modifies this`score, board`view
      ensures Valid()
      ensures board.view == SlideAll(old(board.view))
      ensures score == old(score) + GainOf(old(board.view), 4)
      ensures changed == exists c :: 0 <= c < 4 && Slide(old(board.view)[c]) != old(board.view)[c]
    {
      ghost var v0 := board.view;
      SlidPrefixNone(v0);
      changed := false;
      var i := 0;
      while i < board.size
        invariant 0 <= i <= 4
        invariant Valid()
        invariant board.view == SlidPrefix(v0, i)
        invariant score == old(score) + GainOf(v0, i)
        invariant changed == AnyMoved(v0, i)
      {
        var moved := TiltColumn(i);
        SlidPrefixStep(v0, i, board.view);
        changed := changed || moved;
        i := i + 1;
      }
      SlidPrefixAll(v0);
      AnyMovedIff(v0, 4);
    }

    /** One column of a tilt, in the view from the side tilted toward, as
        the engine spells it out case by case for a four-row board: count the
        empty slots, read the four slots, then move and merge according to
        where the empty slots are. `moved` reports whether the column changed. */
    method TiltColumn(i: int) returns (moved: bool)
      requires Valid() && board.size == 4 && 0 <= i < 4
      modifies this`score, board`view
      ensures Valid()
      ensures board.view[i] == Slide(old(board.view)[i])
      ensures forall c :: 0 <= c < 4 && c != i ==> board.view[c] == old(board.view)[c]
      ensures score == old(score) + SlideGain(old(board.view)[i])
      ensures moved == (Slide(old(board.view)[i]) != old(board.view)[i])
    {
      ghost var col := board.view[i];
      var cntEmpty := 0;
      var j := 0;
      while j < board.size
        invariant 0 <= j <= 4
        invariant cntEmpty == EmptySlots(col[..j])
      {
        var t := board.Tile(i, j);
        assert col[..j + 1][..j] == col[..j];
        if t == 0 {
          cntEmpty := cntEmpty + 1;
        }
        j := j + 1;
      }
      assert col[..4] == col;
      var t3 := board.Tile(i, 3);
      var t2 := board.Tile(i, 2);
      var t1 := board.Tile(i, 1);
      var t0 := board.Tile(i, 0);
      assert col == [t0, t1, t2, t3];
      TilesOfFour(col);
      TiltedFourAgrees(col);
      moved := false;
      if cntEmpty == 0 {
        moved := TiltNoEmpty(i, t0, t1, t2, t3);
      }
      if cntEmpty == 1 {
        moved := TiltOneEmpty(i, t0, t1, t2, t3);
      }
      if cntEmpty == 2 {
        moved := TiltTwoEmpty(i, t0, t1, t2, t3);
      }
      if cntEmpty == 3 {
        moved := TiltThreeEmpty(i, t0, t1, t2, t3);
      }
      if cntEmpty == 4 {
        return;
      }
      SameSlotsEqual(board.view[i], Slide(col));
    }

    /** A full column: the first equal pair from the top merges, and a
        second pair below it too. */
    method TiltNoEmpty(i: int, t0: int, t1: int, t2: int, t3: int) returns (moved: bool)
      requires Valid() && board.size == 4 && 0 <= i < 4
      requires board.view[i] == [t0, t1, t2, t3] && |Keep(t0) + Keep(t1) + Keep(t2) + Keep(t3)| == 4
      modifies this`score, board`view
      ensures Valid()
      ensures SameSlots(board.view[i], TiltedFour(Keep(t0) + Keep(t1) + Keep(t2) + Keep(t3)))
      ensures forall c :: 0 <= c < 4 && c != i ==> board.view[c] == old(board.view)[c]
      ensures score == old(score) + GainedFour(Keep(t0) + Keep(t1) + Keep(t2) + Keep(t3))
      ensures moved == (TiltedFour(Keep(t0) + Keep(t1) + Keep(t2) + Keep(t3)) != [t0, t1, t2, t3])
    {
      ghost var ts := Keep(t0) + Keep(t1) + Keep(t2) + Keep(t3);
      assert ts == [t0, t1, t2, t3];
      moved := false;
      if t3 == t2 {
        board.Move(i, 3, i, 2);
        score := score + t2 * 2;

        board.Move(i, 2, i, 1);
        if t1 == t0 {
          board.Move(i, 2, i, 0);
          score := score + t0 * 2;
        } else {
          board.Move(i, 1, i, 0);
        }
        moved := true;
      } else {
        if t2 == t1 {
          board.Move(i, 2, i, 1);
          score := score + t1 * 2;

          board.Move(i, 1, i, 0);
          moved := true;
        } else {
          if t1 == t0 {
            board.Move(i, 1, i, 0);
            score := score + t0 * 2;
            moved := true;
          } else {
            return;
          }
        }
      }
    }

    /** A column with one empty slot, wherever it is. */
    method TiltOneEmpty(i: int, t0: int, t1: int, t2: int, t3: int) returns (moved: bool)
      requires Valid() && board.size == 4 && 0 <= i < 4
      requires board.view[i] == [t0, t1, t2, t3] && |Keep(t0) + Keep(t1) + Keep(t2) + Keep(t3)| == 3
      modifies this`score, board`view
      ensures Valid()
      ensures SameSlots(board.view[i], TiltedFour(Keep(t0) + Keep(t1) + Keep(t2) + Keep(t3)))
      ensures forall c :: 0 <= c < 4 && c != i ==> board.view[c] == old(board.view)[c]
      ensures score == old(score) + GainedFour(Keep(t0) + Keep(t1) + Keep(t2) + Keep(t3))
      ensures moved == (TiltedFour(Keep(t0) + Keep(t1) + Keep(t2) + Keep(t3)) != [t0, t1, t2, t3])
    {
      ghost var ts := Keep(t0) + Keep(t1) + Keep(t2) + Keep(t3);
      if t3 == 0 {
        assert ts == [t0, t1, t2];
      } else if t2 == 0 {
        assert ts == [t0, t1, t3];
      } else if t1 == 0 {
        assert ts == [t0, t2, t3];
      } else {
        assert ts == [t1, t2, t3];
      }
      moved := false;
      if t3 == 0 {
        board.Move(i, 3, i, 2);
        if t2 == t1 {
          board.Move(i, 3, i, 1);
          score := score + t1 * 2;
          board.Move(i, 2, i, 0);
        } else {
          board.Move(i, 2, i, 1);
          if t1 == t0 {
            board.Move(i, 2, i, 0);
            score := score + t0 * 2;
          } else {
            board.Move(i, 1, i, 0);
          }
        }
        moved := true;
      }
      if t2 == 0 {
        if t3 == t1 {
          board.Move(i, 3, i, 1);
          score := score + t1 * 2;

          board.Move(i, 2, i, 0);
        } else {
          board.Move(i, 2, i, 1);
          if t1 == t0 {
            board.Move(i, 2, i, 0);
            score := score + t0 * 2;
          } else {
            board.Move(i, 1, i, 0);
          }
        }
        moved := true;
      }
      if t1 == 0 {
        if t3 == t2 {
          board.Move(i, 3, i, 2);
          score := score + t2 * 2;

          board.Move(i, 2, i, 0);
        } else {
          if t2 == t0 {
            board.Move(i, 2, i, 0);
            score := score + t0 * 2;
          } else {
            board.Move(i, 1, i, 0);
          }
        }
        moved := true;
      }
      if t0 == 0 {
        if t3 == t2 {
          board.Move(i, 3, i, 2);
          score := score + t2 * 2;

          board.Move(i, 2, i, 1);
          moved := true;
        } else {
          if t2 == t1 {
            board.Move(i, 2, i, 1);
            score := score + t1 * 2;
            moved := true;
          } else {
            return;
          }
        }
      }
    }

    /** A column with two empty slots. */
    method TiltTwoEmpty(i: int, t0: int, t1: int, t2: int, t3: int) returns (moved: bool)
      requires Valid() && board.size == 4 && 0 <= i < 4
      requires board.view[i] == [t0, t1, t2, t3] && |Keep(t0) + Keep(t1) + Keep(t2) + Keep(t3)| == 2
      modifies this`score, board`view
      ensures Valid()
      ensures SameSlots(board.view[i], TiltedFour(Keep(t0) + Keep(t1) + Keep(t2) + Keep(t3)))
      ensures forall c :: 0 <= c < 4 && c != i ==> board.view[c] == old(board.view)[c]
      ensures score == old(score) + GainedFour(Keep(t0) + Keep(t1) + Keep(t2) + Keep(t3))
      ensures moved == (TiltedFour(Keep(t0) + Keep(t1) + Keep(t2) + Keep(t3)) != [t0, t1, t2, t3])
    {
      ghost var ts := Keep(t0) + Keep(t1) + Keep(t2) + Keep(t3);
      if t3 == 0 && t2 == 0 {
        assert ts == [t0, t1];
      } else if t3 == 0 && t1 == 0 {
        assert ts == [t0, t2];
      } else if t3 == 0 {
        assert ts == [t1, t2];
      } else if t2 == 0 && t1 == 0 {
        assert ts == [t0, t3];
      } else if t2 == 0 {
        assert ts == [t1, t3];
      } else {
        assert ts == [t2, t3];
      }
      moved := false;
      if t3 == 0 {
        if t2 == 0 {
          board.Move(i, 3, i, 1);
          if t1 == t0 {
            board.Move(i, 3, i, 0);
            score := score + t0 * 2;
          } else {
            board.Move(i, 2, i, 0);
          }
        }
        if t1 == 0 {
          board.Move(i, 3, i, 2);
          if t2 == t0 {
            board.Move(i, 3, i, 0);
            score := score + t0 * 2;
          } else {
            board.Move(i, 2, i, 0);
          }
        }
        if t0 == 0 {
          board.Move(i, 3, i, 2);
          if t2 == t1 {
            board.Move(i, 3, i, 1);
            score := score + t1 * 2;
          } else {
            board.Move(i, 2, i, 1);
          }
        }
        moved := true;
      }
      if t2 == 0 {
        if t1 == 0 {
          if t3 == t0 {
            board.Move(i, 3, i, 0);
            score := score + t0 * 2;
          } else {
            board.Move(i, 2, i, 0);
          }
        }
        if t0 == 0 {
          if t3 == t1 {
            board.Move(i, 3, i, 1);
            score := score + t1 * 2;
          } else {
            board.Move(i, 2, i, 1);
          }
        }
        moved := true;
      }
      if t1 == 0 && t0 == 0 {
        if t3 == t2 {
          board.Move(i, 3, i, 2);
          score := score + t2 * 2;
          moved := true;
        } else {
          return;
        }
      }
    }

    /** A column with a single tile. */
    method TiltThreeEmpty(i: int, t0: int, t1: int, t2: int, t3: int) returns (moved: bool)
      requires Valid() && board.size == 4 && 0 <= i < 4
      requires board.view[i] == [t0, t1, t2, t3] && |Keep(t0) + Keep(t1) + Keep(t2) + Keep(t3)| == 1
      modifies this`score, board`view
      ensures Valid()
      ensures SameSlots(board.view[i], TiltedFour(Keep(t0) + Keep(t1) + Keep(t2) + Keep(t3)))
      ensures forall c :: 0 <= c < 4 && c != i ==> board.view[c] == old(board.view)[c]
      ensures score == old(score) + GainedFour(Keep(t0) + Keep(t1) + Keep(t2) + Keep(t3))
      ensures moved == (TiltedFour(Keep(t0) + Keep(t1) + Keep(t2) + Keep(t3)) != [t0, t1, t2, t3])
    {
      ghost var ts := Keep(t0) + Keep(t1) + Keep(t2) + Keep(t3);
      if t3 != 0 {
        assert ts == [t3];
      } else if t2 != 0 {
        assert ts == [t2];
      } else if t1 != 0 {
        assert ts == [t1];
      } else {
        assert ts == [t0];
      }
      moved := false;
      if t3 != 0 {
        return;
      }
      if t2 != 0 {
        board.Move(i, 3, i, 2);
        moved := true;
      }
      if t1 != 0 {
        board.Move(i, 3, i, 1);
        moved := true;
      }
      if t0 != 0 {
        board.Move(i, 3, i, 0);
        moved := true;
      }
    }

    /** Re-decides whether the game is over, from the board as viewed. */
    method CheckGameOver()
      requires Valid()
      modifies this`gameOver
      ensures gameOver == IsOver(board.view)
    {
      gameOver := CheckGameOverOf(board);
    }
  }

  /** A tilt that changes nothing still leaves the board turned. A board
      holding one tile of value 2 in the lower-left corner, tilted west:
      the tile already sits against the west edge, so nothing moves, and
      `TiltAsWritten` keeps the west perspective; from it, slot (0, 0) reads
      as empty although the corner holds the tile. */
  lemma NoOpTiltLeavesBoardTurned()
    ensures var g := Set(EmptyGrid(4), 0, 0, 2);
            IsGrid(g, 4) && TiltGrid(g, West) == g &&
            ViewOf(g, West)[0][0] == 0 && g[0][0] == 2
  {
    var g := Set(EmptyGrid(4), 0, 0, 2);
    assert IsGrid(g, 4);
    var v := ViewOf(g, West);
    forall c | 0 <= c < 4 ensures Slide(v[c]) == v[c] {
      TilesOfFour(v[c]);
      TiltedFourAgrees(v[c]);
      if c == 0 {
        assert v[c][3] == 2 && v[c][0] == 0 && v[c][1] == 0 && v[c][2] == 0;
        assert Tiles(v[c]) == [2];
        SameSlotsEqual(Slide(v[c]), v[c]);
      } else {
        assert v[c][3] == 0 && v[c][0] == 0 && v[c][1] == 0 && v[c][2] == 0;
        assert Tiles(v[c]) == [];
        SameSlotsEqual(Slide(v[c]), v[c]);
      }
    }
    TiltChangedIff(g, West);
  }

  /** Whether the game on board `b` is over: a winning tile, or no move. */
  method CheckGameOverOf(b: Board) returns (over: bool)
    requires b.Valid()
    ensures over == IsOver(b.view)
  {
    var hasMax := MaxTileExists(b);
    if hasMax {
      over := true;
    } else {
      var hasMove := AtLeastOneMoveExists(b);
      over := !hasMove;
    }
  }

  /** Whether some slot of `b` is empty, scanning column by column. */
  method EmptySpaceExists(b: Board) returns (isEmpty: bool)
    requires b.Valid()
    ensures isEmpty == HasEmptySlot(b.view)
  {
    ghost var v := b.view;
    var n := b.size;
    isEmpty := false;
    var i := 0;
    while i < n
      invariant 0 <= i <= n
      invariant isEmpty == exists c, r :: 0 <= c < i && 0 <= r < n && v[c][r] == 0
    {
      var j := 0;
      while j < n
        invariant 0 <= j <= n
        invariant isEmpty == ((exists c, r :: 0 <= c < i && 0 <= r < n && v[c][r] == 0) ||
                              (exists r :: 0 <= r < j && v[i][r] == 0))
      {
        if b.Tile(i, j) == 0 {
          isEmpty := true;
          break;
        }
        j := j + 1;
      }
      i := i + 1;
    }
    assert isEmpty == exists c, r :: InBounds(v, c, r) && v[c][r] == 0;
  }

  /** Whether some tile of `b` has the winning value. */
  method MaxTileExists(b: Board) returns (isMax: bool)
    requires b.Valid()
    ensures isMax == HasMaxTile(b.view)
  {
    ghost var v := b.view;
    var n := b.size;
    isMax := false;
    var i := 0;
    while i < n
      invariant 0 <= i <= n
      invariant isMax == exists c, r :: 0 <= c < i && 0 <= r < n && v[c][r] == MAX_PIECE
    {
      var j := 0;
      while j < n
        invariant 0 <= j <= n
        invariant isMax == ((exists c, r :: 0 <= c < i && 0 <= r < n && v[c][r] == MAX_PIECE) ||
                            (exists r :: 0 <= r < j && v[i][r] == MAX_PIECE))
      {
        var t := b.Tile(i, j);
        if t != 0 {
          if t == MAX_PIECE {
            isMax := true;
            break;
          }
        }
        j := j + 1;
      }
      i := i + 1;
    }
    assert isMax == exists c, r :: InBounds(v, c, r) && v[c][r] == MAX_PIECE;
  }

  /** Whether some tilt can still change `b`: an empty slot, or two
      orthogonally adjacent tiles of equal value. */
  method AtLeastOneMoveExists(b: Board) returns (oneMove: bool)
    requires b.Valid()
    ensures oneMove == HasMove(b.view)
  {
    ghost var v := b.view;
    var n := b.size;
    oneMove := false;
    var hasEmpty := EmptySpaceExists(b);
    if hasEmpty {
      oneMove := true;
    } else {
      var i: int := 0;
      while i < n
        invariant 0 <= i <= n
        invariant oneMove == exists c, r :: 0 <= c < i && 0 <= r < n && EqualNeighbourAt(v, c, r)
      {
        var j: int := 0;
        while j < n
          invariant 0 <= j <= n
          invariant oneMove == ((exists c, r :: 0 <= c < i && 0 <= r < n && EqualNeighbourAt(v, c, r)) ||
                                (exists r :: 0 <= r < j && EqualNeighbourAt(v, i, r)))
        {
          ghost var before := oneMove;
          var t := b.Tile(i, j);
          if j + 1 < n {
            var tNorth := b.Tile(i, j + 1);
            if tNorth == t {
              oneMove := true;
            }
          }
          if j - 1 >= 0 {
            var tSouth := b.Tile(i, j - 1);
            if tSouth == t {
              oneMove := true;
            }
          }
          if i - 1 >= 0 {
            var tWest := b.Tile(i - 1, j);
            if tWest == t {
              oneMove := true;
            }
          }
          if i + 1 < n {
            var tEast := b.Tile(i + 1, j);
            if tEast == t {
              oneMove := true;
            }
          }
          assert oneMove == (before || EqualNeighbourAt(v, i, j));
          j := j + 1;
        }
        i := i + 1;
      }
      EqualNeighbourScan(v);
    }
  }
}
