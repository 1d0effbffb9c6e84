/** Cell.movePiece: a cell hands the move to the piece that travels, the
    ball when it carries one and otherwise its knight. */
module CellMoves {
  import opened Pieces
  import opened Cells
  import Knights
  import Balls

  /** Whether the piece that travels from the source may go to the
      destination: the ball's pass rule on a cell of more than one piece,
      otherwise the knight's step rule together with Knight.move's
      single-piece test. */
  predicate CanMove(G: GridView, sx: int, sy: int, dx: int, dy: int)
    requires Shaped(G) && InBounds(sx, sy) && InBounds(dx, dy)
  {
    if |G[sy][sx]| > 1 then Balls.ValidPass(G, G[sy][sx][1].color, sx, sy, dx, dy)
    else Knights.ValidMove(G, sx, sy, dx, dy)
  }

  /** The board after a successful move. */
  function AfterMove(G: GridView, sx: int, sy: int, dx: int, dy: int): GridView
    requires Shaped(G) && InBounds(sx, sy) && InBounds(dx, dy)
  {
    if |G[sy][sx]| > 1 then Balls.Passed(G, sx, sy, dx, dy)
    else Knights.Moved(G, sx, sy, dx, dy)
  }

  /** Cell.movePiece on the cell at (sx, sy). On a tidy board the second
      piece of a cell is always a ball and a lone piece is always a knight,
      so dispatching on the size reaches the same `move` as Java's virtual
      call. */
  method MovePiece(g: array2<seq<Piece>>, sx: int, sy: int, dx: int, dy: int) returns (ok: bool)
    requires g.Length0 == HEIGHT && g.Length1 == WIDTH && Tidy(Contents(g))
    requires InBounds(sx, sy) && InBounds(dx, dy)
    modifies g
    ensures ok == CanMove(old(Contents(g)), sx, sy, dx, dy)
    ensures Contents(g) == if ok then AfterMove(old(Contents(g)), sx, sy, dx, dy) else old(Contents(g))
  {
    if |g[sy, sx]| > 1 {
      var p := g[sy, sx][1];
      ok := Balls.Move(g, p, sx, sy, dx, dy);
    } else {
      ok := Knights.Move(g, sx, sy, dx, dy);
    }
  }

  /** Every successful move keeps the board tidy. */
  lemma {:induction false} MoveKeepsTidy(G: GridView, sx: int, sy: int, dx: int, dy: int)
    requires Tidy(G) && InBounds(sx, sy) && InBounds(dx, dy) && CanMove(G, sx, sy, dx, dy)
    ensures Tidy(AfterMove(G, sx, sy, dx, dy))
  {
    if |G[sy][sx]| > 1 {
      Balls.PassKeepsTidy(G, G[sy][sx][1].color, sx, sy, dx, dy);
    } else {
      Knights.MoveKeepsTidy(G, sx, sy, dx, dy);
    }
  }

  /** Every successful move keeps the same pieces on the board. */
  lemma {:induction false} MoveKeepsPieces(G: GridView, sx: int, sy: int, dx: int, dy: int)
    requires Tidy(G) && InBounds(sx, sy) && InBounds(dx, dy) && CanMove(G, sx, sy, dx, dy)
    ensures Bag(AfterMove(G, sx, sy, dx, dy)) == Bag(G)
  {
    if |G[sy][sx]| > 1 {
      Balls.PassKeepsPieces(G, sx, sy, dx, dy);
    } else {
      Knights.MoveKeepsPieces(G, sx, sy, dx, dy);
    }
  }

  /** What lands on the destination: after a pass it carries two or more
      pieces with the ball on top; after a knight step it holds the knight
      alone. */
  lemma {:induction false} MoveLanding(G: GridView, sx: int, sy: int, dx: int, dy: int)
    requires Tidy(G) && InBounds(sx, sy) && InBounds(dx, dy) && CanMove(G, sx, sy, dx, dy)
    ensures Shaped(AfterMove(G, sx, sy, dx, dy))
    ensures |G[sy][sx]| > 1 ==>
      var D := AfterMove(G, sx, sy, dx, dy)[dy][dx];
      |D| > 1 && D[|D| - 1] == G[sy][sx][1]
    ensures |G[sy][sx]| == 1 ==> AfterMove(G, sx, sy, dx, dy)[dy][dx] == G[sy][sx]
  {
    if |G[sy][sx]| > 1 {
      Balls.PassedCells(G, sx, sy, dx, dy);
      if Pos(sx, sy) == Pos(dx, dy) {
        assert G[sy][sx] == [G[sy][sx][0]] + G[sy][sx][1..];
      }
    } else {
      Knights.MovedCells(G, sx, sy, dx, dy);
    }
  }
}
