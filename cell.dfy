/** Cells of the 7 x 8 board (Cell.java). A Java `Cell` is a position plus a
    list of pieces; the board's `Cell[][]` becomes an `array2<seq<Piece>>`
    indexed `[y, x]`, and a reference to a cell becomes its position. */
module Cells {
  import opened Common
  import opened Pieces

  const WIDTH: int := 7
  const HEIGHT: int := 8

  /** The position of a cell: column `x`, row `y`. */
  datatype Pos = Pos(x: int, y: int)

  /** The bounds every move checks: x in [0, 6], y in [0, 7]. */
  predicate InBounds(x: int, y: int)
  {
    0 <= x <= 6 && 0 <= y <= 7
  }

  /** A position on the board. */
  type Square = p: Pos | InBounds(p.x, p.y) witness Pos(0, 0)

  /** The value of a whole board: `G[y][x]` is the piece list of cell (x, y). */
  type GridView = seq<seq<seq<Piece>>>

  /** The board's fixed 8 x 7 shape, with a piece list in every cell that
      holds at least one piece (a marker when the square is empty). */
  predicate Shaped(G: GridView)
  {
    && |G| == HEIGHT
    && (forall y | 0 <= y < HEIGHT :: |G[y]| == WIDTH)
    && (forall y, x | 0 <= y < HEIGHT && 0 <= x < WIDTH :: |G[y][x]| > 0)
  }

  /** The piece list of the cell at `p`. */
  function At(G: GridView, p: Pos): seq<Piece>
    requires Shaped(G) && InBounds(p.x, p.y)
  {
    G[p.y][p.x]
  }

  /** `G` with the piece list of cell (x, y) replaced by `c`. */
  function Put(G: GridView, x: int, y: int, c: seq<Piece>): (H: GridView)
    requires 0 <= y < |G| && 0 <= x < |G[y]|
    ensures |H| == |G| && |H[y]| == |G[y]|
    ensures forall y' | 0 <= y' < |G| && y' != y :: H[y'] == G[y']
    ensures forall x' | 0 <= x' < |G[y]| :: H[y][x'] == if x' == x then c else G[y][x']
  {
    G[y := G[y][x := c]]
  }

  /** The current contents of a board array as a value. */
  function Contents(g: array2<seq<Piece>>): (G: GridView)
    reads g
    ensures |G| == g.Length0
    ensures forall y | 0 <= y < g.Length0 :: |G[y]| == g.Length1
    ensures forall y, x | 0 <= y < g.Length0 && 0 <= x < g.Length1 :: G[y][x] == g[y, x]
  {
    seq(g.Length0, (y: int) reads g =>
      seq(g.Length1, (x: int) reads g =>
        if 0 <= y < g.Length0 && 0 <= x < g.Length1 then g[y, x] else []))
  }

  /** Two board values agree when they agree cell by cell. */
  lemma {:induction false} ContentsIs(g: array2<seq<Piece>>, G: GridView)
    requires |G| == g.Length0
    requires forall y | 0 <= y < g.Length0 :: |G[y]| == g.Length1
    requires forall y, x | 0 <= y < g.Length0 && 0 <= x < g.Length1 :: G[y][x] == g[y, x]
    ensures Contents(g) == G
  {
    var C := Contents(g);
    forall y | 0 <= y < |G|
      ensures C[y] == G[y]
    {
      assert |C[y]| == |G[y]|;
      forall x | 0 <= x < |G[y]| ensures C[y][x] == G[y][x] { }
    }
  }

  /** Cell.setPiece, on a piece list: a knight replaces the whole contents,
      any other piece is appended after the pieces already there. */
  function SetPiece(ps: seq<Piece>, p: Piece): (r: seq<Piece>)
    ensures |r| > 0 && r[|r| - 1] == p
    ensures p.Knight? ==> |r| == 1
    ensures !p.Knight? ==> |r| == |ps| + 1 && r[..|ps|] == ps
  {
    if p.Knight? then [p] else ps + [p]
  }

  /** Cell.isEmpty: the first piece of the cell is the id-0 marker. */
  predicate IsEmpty(ps: seq<Piece>)
    requires |ps| > 0
  {
    ps[0].id == 0
  }

  /** Java's `List.remove(Object)`: drop the first occurrence of `p`, if any. */
  function RemoveFirst(ps: seq<Piece>, p: Piece): seq<Piece>
  {
    if ps == [] then []
    else if ps[0] == p then ps[1..] else [ps[0]] + RemoveFirst(ps[1..], p)
  }

  /** `remove(Object)` leaves a list without `p` as it is, and otherwise
      takes exactly one `p` out of it. */
  lemma {:induction false} RemoveFirstBag(ps: seq<Piece>, p: Piece)
    ensures p !in ps ==> RemoveFirst(ps, p) == ps
    ensures p in ps ==> multiset(RemoveFirst(ps, p)) + multiset{p} == multiset(ps)
  {
    if ps != [] {
      assert ps == [ps[0]] + ps[1..];
      RemoveFirstBag(ps[1..], p);
    }
  }

  /** Removing `p` from a list whose first `p` sits at index `i` cuts out
      exactly that element. */
  lemma {:induction false} RemoveFirstAt(ps: seq<Piece>, p: Piece, i: int)
    requires 0 <= i < |ps| && ps[i] == p && p !in ps[..i]
    ensures RemoveFirst(ps, p) == ps[..i] + ps[i + 1..]
  {
    if i > 0 {
      assert ps[0] in ps[..i];
      var tail := ps[1..];
      assert RemoveFirst(ps, p) == [ps[0]] + RemoveFirst(tail, p);
      assert tail[..i - 1] == ps[1..i];
      RemoveFirstAt(tail, p, i - 1);
      assert ps[..i] == [ps[0]] + ps[1..i];
      assert ps[i + 1..] == tail[i..];
    }
  }


  /** The pieces a knight may carry on a well-formed board: a white knight
      has id 1..5, a black knight id 7..11, and the only colourless knight is
      the empty-square marker. */
  predicate ProperKnight(k: Piece)
  {
    && k.Knight?
    && ((k.color == White && 1 <= k.id <= 5)
        || (k.color == Black && 7 <= k.id <= 11)
        || k == Marker)
  }

  /** A well-formed cell: a proper knight first, the marker only on its own,
      and nothing but balls above the knight. */
  predicate TidyCell(ps: seq<Piece>)
  {
    && |ps| > 0
    && ProperKnight(ps[0])
    && (ps[0] == Marker ==> |ps| == 1)
    && (forall j | 1 <= j < |ps| :: ps[j].Ball?)
  }

  /** The board invariant kept by every legal move. */
  predicate Tidy(G: GridView)
  {
    && Shaped(G)
    && (forall y, x | 0 <= y < HEIGHT && 0 <= x < WIDTH :: TidyCell(G[y][x]))
  }

  /** A tidy board's cell at (x, y) is tidy. */
  lemma {:induction false} TidyAt(G: GridView, x: int, y: int)
    requires Tidy(G) && InBounds(x, y)
    ensures TidyCell(G[y][x])
  {
  }

  /** On a tidy cell, "empty" means exactly "holds only the marker". */
  lemma {:induction false} TidyEmpty(ps: seq<Piece>)
    requires TidyCell(ps)
    ensures IsEmpty(ps) <==> ps == [Marker]
  {
  }

  /** A Java `Cell` object as a value: its coordinates and its piece list. */
  datatype CellView = CellView(x: int, y: int, pieces: seq<Piece>)

  function CellAt(G: GridView, p: Pos): CellView
    requires Shaped(G) && InBounds(p.x, p.y)
  {
    CellView(p.x, p.y, At(G, p))
  }

  /** Cell.equals: same coordinates and equal piece lists. */
  predicate CellEquals(a: CellView, b: CellView)
  {
    a.x == b.x && a.y == b.y && a.pieces == b.pieces
  }

  /** Two cells of one board are equal exactly when they are the same
      square, which is why a reference to a cell is modelled by its position. */
  lemma {:induction false} CellEqualsIsSameSquare(G: GridView, p: Pos, q: Pos)
    requires Shaped(G) && InBounds(p.x, p.y) && InBounds(q.x, q.y)
    ensures CellEquals(CellAt(G, p), CellAt(G, q)) <==> p == q
  {
  }

  /** The copy constructor Cell(Cell): same coordinates, and a new piece list
      holding, position by position, a piece of the same kind, colour and id. */
  method CopyCell(c: CellView) returns (r: CellView)
    ensures r.x == c.x && r.y == c.y
    ensures |r.pieces| == |c.pieces|
    ensures forall i | 0 <= i < |c.pieces| :: r.pieces[i] == c.pieces[i]
  {
    var ps: seq<Piece> := [];
    for i := 0 to |c.pieces|
      invariant ps == c.pieces[..i]
    {
      match c.pieces[i]
      case Knight(color, id) => ps := ps + [Knight(color, id)];
      case Ball(color, id) => ps := ps + [Ball(color, id)];
    }
    r := CellView(c.x, c.y, ps);
  }

  /** Cell.setPiece on the board array: only the cell at (x, y) changes. */
  method SetPieceAt(g: array2<seq<Piece>>, x: int, y: int, p: Piece)
    requires 0 <= y < g.Length0 && 0 <= x < g.Length1
    modifies g
    ensures Contents(g) == Put(old(Contents(g)), x, y, SetPiece(old(g[y, x]), p))
  {
    ghost var G := Contents(g);
    if p.Knight? {
      g[y, x] := [p];
    } else {
      g[y, x] := g[y, x] + [p];
    }
    ContentsIs(g, Put(G, x, y, SetPiece(G[y][x], p)));
  }

  /** `getPiece().remove(p)` on the board array: the first occurrence of
      `p` leaves the cell at (x, y), and only that cell changes. */
  method RemovePieceAt(g: array2<seq<Piece>>, x: int, y: int, p: Piece)
    requires 0 <= y < g.Length0 && 0 <= x < g.Length1
    modifies g
    ensures Contents(g) == Put(old(Contents(g)), x, y, RemoveFirst(old(g[y, x]), p))
  {
    ghost var G := Contents(g);
    g[y, x] := RemoveFirst(g[y, x], p);
    ContentsIs(g, Put(G, x, y, RemoveFirst(G[y][x], p)));
  }

  /** All pieces on one row of cells. */
  function RowBag(row: seq<seq<Piece>>): multiset<Piece>
  {
    if row == [] then multiset{} else multiset(row[0]) + RowBag(row[1..])
  }

  /** All pieces on the board. */
  function Bag(G: GridView): multiset<Piece>
  {
    if G == [] then multiset{} else RowBag(G[0]) + Bag(G[1..])
  }

  /** How often piece `e` occurs in a row of cells, before and after cell
      `x` is replaced by `c`. */
  lemma {:induction false} RowBagUpdate(row: seq<seq<Piece>>, x: int, c: seq<Piece>, e: Piece)
    requires 0 <= x < |row|
    ensures multiset(row[x])[e] <= RowBag(row)[e]
    ensures RowBag(row[x := c])[e] + multiset(row[x])[e] == RowBag(row)[e] + multiset(c)[e]
  {
    if x == 0 {
      assert row[x := c][1..] == row[1..];
    } else {
      assert row[x := c][0] == row[0];
      RowBagUpdate(row[1..], x - 1, c, e);
      assert row[x := c][1..] == row[1..][x - 1 := c];
    }
  }

  /** How often piece `e` occurs on the board, before and after row `y`
      is replaced by `row`. */
  lemma {:induction false} BagUpdate(G: GridView, y: int, row: seq<seq<Piece>>, e: Piece)
    requires 0 <= y < |G|
    ensures RowBag(G[y])[e] <= Bag(G)[e]
    ensures Bag(G[y := row])[e] + RowBag(G[y])[e] == Bag(G)[e] + RowBag(row)[e]
  {
    var H := G[y := row];
    if y == 0 {
      assert H[1..] == G[1..];
    } else {
      BagUpdate(G[1..], y - 1, row, e);
      assert H[1..] == G[1..][y - 1 := row];
      assert H[0] == G[0];
    }
  }

  /** Replacing one cell changes the board's pieces by exactly the cell's
      old and new contents. */
  lemma {:induction false} PutBag(G: GridView, x: int, y: int, c: seq<Piece>)
    requires 0 <= y < |G| && 0 <= x < |G[y]|
    ensures multiset(G[y][x]) <= Bag(G)
    ensures Bag(Put(G, x, y, c)) == Bag(G) - multiset(G[y][x]) + multiset(c)
  {
    forall e
      ensures multiset(G[y][x])[e] <= Bag(G)[e]
      ensures Bag(Put(G, x, y, c))[e] == (Bag(G) - multiset(G[y][x]) + multiset(c))[e]
    {
      RowBagUpdate(G[y], x, c, e);
      BagUpdate(G, y, G[y][x := c], e);
    }
  }
}
