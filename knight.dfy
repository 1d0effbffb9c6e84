/** The mover piece (Knight.java): an L-shaped step onto an empty square. */
module Knights {
  import opened Common
  import opened Pieces
  import opened Cells

  /** Knight.validMove: every coordinate on the board, an empty destination,
      and a (1, 2) or (2, 1) offset. Out-of-board coordinates are rejected
      before any cell is looked at. */
  predicate ValidMove(G: GridView, sx: int, sy: int, dx: int, dy: int)
    requires Shaped(G)
  {
    if !InBounds(sx, sy) || !InBounds(dx, dy) then false
    else if !IsEmpty(G[dy][dx]) then false
    else
      var ax := Abs(dx - sx);
      var ay := Abs(dy - sy);
      (ax == 1 && ay == 2) || (ax == 2 && ay == 1)
  }

  /** The eight offsets of a knight's step, listed one by one. */
  const Steps: seq<(int, int)> := [(1, 2), (2, 1), (2, -1), (1, -2), (-1, -2), (-2, -1), (-2, 1), (-1, 2)]

  /** `ValidMove` accepts exactly the on-board steps by one of the eight
      listed offsets onto an empty square. */
  lemma {:induction false} ValidMoveIsKnightStep(G: GridView, sx: int, sy: int, dx: int, dy: int)
    requires Shaped(G)
    ensures ValidMove(G, sx, sy, dx, dy) <==>
      InBounds(sx, sy) && InBounds(dx, dy) && IsEmpty(G[dy][dx]) && (dx - sx, dy - sy) in Steps
  {
  }

  /** The board after Knight.move succeeds: the destination receives the
      source's first piece (Cell.setPiece), then the source receives a fresh
      marker. */
  function Moved(G: GridView, sx: int, sy: int, dx: int, dy: int): GridView
    requires Shaped(G) && InBounds(sx, sy) && InBounds(dx, dy)
  {
    var G1 := Put(G, dx, dy, SetPiece(G[dy][dx], G[sy][sx][0]));
    Put(G1, sx, sy, SetPiece(G1[sy][sx], Marker))
  }

  /** Knight.move. Both cells are looked up before the move is validated,
      so the coordinates must lie on the board. A cell carrying a ball
      (more than one piece) never moves as a knight. */
  method Move(g: array2<seq<Piece>>, sx: int, sy: int, dx: int, dy: int) returns (ok: bool)
    requires g.Length0 == HEIGHT && g.Length1 == WIDTH && Shaped(Contents(g))
    requires InBounds(sx, sy) && InBounds(dx, dy)
    modifies g
    ensures ok == (ValidMove(old(Contents(g)), sx, sy, dx, dy) && |old(g[sy, sx])| == 1)
    ensures Contents(g) == if ok then Moved(old(Contents(g)), sx, sy, dx, dy) else old(Contents(g))
  {
    ok := false;
    if ValidMove(Contents(g), sx, sy, dx, dy) {
      if |g[sy, sx]| == 1 {
        SetPieceAt(g, dx, dy, g[sy, sx][0]);
        SetPieceAt(g, sx, sy, Marker);
        ok := true;
      }
    }
  }

  /** On success the destination holds exactly the moved knight, the source
      exactly one marker, and no other cell changes. */
  lemma {:induction false} MovedCells(G: GridView, sx: int, sy: int, dx: int, dy: int)
    requires Tidy(G) && ValidMove(G, sx, sy, dx, dy) && |G[sy][sx]| == 1
    ensures Shaped(Moved(G, sx, sy, dx, dy))
    ensures Moved(G, sx, sy, dx, dy)[dy][dx] == [G[sy][sx][0]]
    ensures Moved(G, sx, sy, dx, dy)[sy][sx] == [Marker]
    ensures forall y, x | 0 <= y < HEIGHT && 0 <= x < WIDTH && Pos(x, y) != Pos(sx, sy) && Pos(x, y) != Pos(dx, dy)
      :: Moved(G, sx, sy, dx, dy)[y][x] == G[y][x]
  {
  }

  /** A knight move keeps the board tidy. */
  lemma {:induction false} MoveKeepsTidy(G: GridView, sx: int, sy: int, dx: int, dy: int)
    requires Tidy(G) && ValidMove(G, sx, sy, dx, dy) && |G[sy][sx]| == 1
    ensures Tidy(Moved(G, sx, sy, dx, dy))
  {
    MovedCells(G, sx, sy, dx, dy);
  }

  /** A knight move keeps every piece on the board: the moved knight and
      the marker trade places. */
  lemma {:induction false} MoveKeepsPieces(G: GridView, sx: int, sy: int, dx: int, dy: int)
    requires Tidy(G) && ValidMove(G, sx, sy, dx, dy) && |G[sy][sx]| == 1
    ensures Bag(Moved(G, sx, sy, dx, dy)) == Bag(G)
  {
    TidyEmpty(G[dy][dx]);
    var k := G[sy][sx][0];
    assert G[sy][sx] == [k];
    assert Pos(sx, sy) != Pos(dx, dy);
    var G1 := Put(G, dx, dy, [k]);
    assert G1[sy][sx] == [k];
    PutBag(G, dx, dy, [k]);
    PutBag(G1, sx, sy, [Marker]);
    assert Moved(G, sx, sy, dx, dy) == Put(G1, sx, sy, [Marker]);
  }

  /** A knight move can be taken back: from the new board the knight may
      step back, and doing so restores the original board exactly. */
  lemma {:induction false} MoveUndo(G: GridView, sx: int, sy: int, dx: int, dy: int)
    requires Tidy(G) && ValidMove(G, sx, sy, dx, dy) && |G[sy][sx]| == 1
    ensures ValidMove(Moved(G, sx, sy, dx, dy), dx, dy, sx, sy)
    ensures |Moved(G, sx, sy, dx, dy)[dy][dx]| == 1
    ensures Moved(Moved(G, sx, sy, dx, dy), dx, dy, sx, sy) == G
  {
    MovedCells(G, sx, sy, dx, dy);
    TidyEmpty(G[dy][dx]);
    var H := Moved(G, sx, sy, dx, dy);
    var B := Moved(H, dx, dy, sx, sy);
    MovedCells(H, dx, dy, sx, sy);
    forall y | 0 <= y < HEIGHT ensures B[y] == G[y] {
      forall x | 0 <= x < WIDTH ensures B[y][x] == G[y][x] {
        if Pos(x, y) == Pos(sx, sy) {
          assert G[sy][sx] == [G[sy][sx][0]];
        }
      }
    }
  }
}
