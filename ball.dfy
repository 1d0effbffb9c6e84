/** The ball (Ball.java): a pass along a row, a column or a diagonal onto an
    occupied square, checked by walking the squares in between. */
module Balls {
  import opened Common
  import opened Pieces
  import opened Cells

  /** Integer.signum. */
  function Signum(v: int): (r: int)
    ensures r == -1 || r == 0 || r == 1
    ensures (r > 0 <==> v > 0) && (r < 0 <==> v < 0)
  {
    if v > 0 then 1 else if v < 0 then -1 else 0
  }

  /** The offset is horizontal, vertical or exactly diagonal. */
  predicate OnLine(sx: int, sy: int, dx: int, dy: int)
  {
    sx == dx || sy == dy || Abs(sx - dx) == Abs(sy - dy)
  }

  /** The number of steps from source to destination. */
  function Span(sx: int, sy: int, dx: int, dy: int): nat
  {
    Max(Abs(dx - sx), Abs(dy - sy))
  }

  /** One coordinate after `k` signum-steps from `a` toward `b`. */
  function Toward(a: int, b: int, k: int): int
  {
    if b > a then a + k else if b < a then a - k else a
  }

  /** The square reached after `k` steps of the walk. */
  function PathPos(sx: int, sy: int, dx: int, dy: int, k: int): Pos
  {
    Pos(Toward(sx, dx, k), Toward(sy, dy, k))
  }

  /** The number of squares strictly between source and destination. */
  function Inner(sx: int, sy: int, dx: int, dy: int): nat
  {
    var n := Span(sx, sy, dx, dy);
    if n == 0 then 0 else n - 1
  }

  /** The walk stays on the board and first reaches the destination after
      exactly `Span` steps, which is why Ball.validMove's loop ends. */
  lemma {:induction false} PathFacts(sx: int, sy: int, dx: int, dy: int, k: int)
    requires InBounds(sx, sy) && InBounds(dx, dy) && OnLine(sx, sy, dx, dy)
    requires 0 <= k <= Span(sx, sy, dx, dy)
    ensures InBounds(PathPos(sx, sy, dx, dy, k).x, PathPos(sx, sy, dx, dy, k).y)
    ensures PathPos(sx, sy, dx, dy, k) == Pos(dx, dy) <==> k == Span(sx, sy, dx, dy)
  {
  }

  /** One more step adds the signum offsets to both coordinates. */
  lemma {:induction false} PathStep(sx: int, sy: int, dx: int, dy: int, k: nat)
    ensures PathPos(sx, sy, dx, dy, k + 1).x == PathPos(sx, sy, dx, dy, k).x + Signum(dx - sx)
    ensures PathPos(sx, sy, dx, dy, k + 1).y == PathPos(sx, sy, dx, dy, k).y + Signum(dy - sy)
  {
  }

  /** While the walk has not reached the destination it stands on an inner
      square, and the next square is one signum-step further. */
  lemma {:induction false} WalkAdvance(sx: int, sy: int, dx: int, dy: int, k: int)
    requires InBounds(sx, sy) && InBounds(dx, dy) && OnLine(sx, sy, dx, dy)
    requires 1 <= k <= Max(Span(sx, sy, dx, dy), 1)
    requires PathPos(sx, sy, dx, dy, k) != Pos(dx, dy)
    ensures k <= Inner(sx, sy, dx, dy) && k + 1 <= Max(Span(sx, sy, dx, dy), 1)
    ensures InBounds(PathPos(sx, sy, dx, dy, k).x, PathPos(sx, sy, dx, dy, k).y)
    ensures PathPos(sx, sy, dx, dy, k + 1) ==
      Pos(PathPos(sx, sy, dx, dy, k).x + Signum(dx - sx), PathPos(sx, sy, dx, dy, k).y + Signum(dy - sy))
  {
    PathFacts(sx, sy, dx, dy, k);
  }

  /** Once the walk stands on the destination it has visited every inner
      square. */
  lemma {:induction false} WalkEnd(sx: int, sy: int, dx: int, dy: int, k: int)
    requires InBounds(sx, sy) && InBounds(dx, dy) && OnLine(sx, sy, dx, dy)
    requires 1 <= k <= Max(Span(sx, sy, dx, dy), 1)
    requires PathPos(sx, sy, dx, dy, k) == Pos(dx, dy)
    ensures k - 1 == Inner(sx, sy, dx, dy)
  {
    if Span(sx, sy, dx, dy) > 0 {
      PathFacts(sx, sy, dx, dy, k);
    }
  }

  /** The pieces on square `p`; nothing off the board. */
  function SquareAt(G: GridView, p: Pos): (r: seq<Piece>)
    ensures Shaped(G) && InBounds(p.x, p.y) ==> r == At(G, p)
  {
    if 0 <= p.y < |G| && 0 <= p.x < |G[p.y]| then G[p.y][p.x] else []
  }

  /** The squares strictly between source and destination, in walk order:
      square `i` is `i + 1` steps from the source. */
  function Between(G: GridView, sx: int, sy: int, dx: int, dy: int): seq<seq<Piece>>
  {
    seq(Inner(sx, sy, dx, dy), i => SquareAt(G, PathPos(sx, sy, dx, dy, i + 1)))
  }

  /** A square that holds a real piece. */
  predicate Occupied(ps: seq<Piece>)
  {
    |ps| > 0 && !IsEmpty(ps)
  }

  /** A piece that blocks a ball of colour `c`: neither `c` nor "none". */
  predicate Opposes(p: Piece, c: Color)
  {
    !(p.color == c || p.color == NoColor)
  }

  /** An occupied square whose first piece opposes `c`. */
  predicate Blocks(ps: seq<Piece>, c: Color)
  {
    Occupied(ps) && Opposes(ps[0], c)
  }

  /** One turn of Ball.validMove's loop as written: an occupied square
      overwrites `found` with its own verdict. */
  function Visit(found: bool, ps: seq<Piece>, c: Color): bool
  {
    if Occupied(ps) then Blocks(ps, c) else found
  }

  /** `foundOpponent` in Ball.validMove as written: starting from `found`,
      every occupied square in `v` overwrites it with its own verdict. */
  function FoldAsWritten(found: bool, v: seq<seq<Piece>>, c: Color): bool
    decreases |v|
  {
    if v == [] then found
    else FoldAsWritten(Visit(found, v[0], c), v[1..], c)
  }

  /** The evidently intended `foundOpponent`: once set, it stays set. */
  function FoldAny(found: bool, v: seq<seq<Piece>>, c: Color): bool
    decreases |v|
  {
    if v == [] then found
    else FoldAny(found || Blocks(v[0], c), v[1..], c)
  }

  /** One turn of each fold, from square `i` of `v`. */
  lemma {:induction false} FoldStep(found: bool, v: seq<seq<Piece>>, i: int, c: Color)
    requires 0 <= i < |v|
    ensures FoldAsWritten(found, v[i..], c) == FoldAsWritten(Visit(found, v[i], c), v[i + 1..], c)
    ensures FoldAny(found, v[i..], c) == FoldAny(found || Blocks(v[i], c), v[i + 1..], c)
  {
    assert v[i..][1..] == v[i + 1..];
  }

  /** No square in `v` from index `i` on is occupied. */
  predicate ClearFrom(v: seq<seq<Piece>>, i: int)
  {
    forall m | 0 <= m < |v| && i <= m :: !Occupied(v[m])
  }

  /** As written, the verdict is that of the LAST occupied square, or the
      starting value when no square is occupied. */
  lemma {:induction false} FoldAsWrittenIsLast(found: bool, v: seq<seq<Piece>>, c: Color)
    ensures FoldAsWritten(found, v, c) <==>
      (exists i | 0 <= i < |v| :: Blocks(v[i], c) && ClearFrom(v, i + 1)) || (found && ClearFrom(v, 0))
    decreases |v|
  {
    if v != [] {
      var u := v[1..];
      var f := Visit(found, v[0], c);
      FoldAsWrittenIsLast(f, u, c);
      assert forall m | 0 <= m < |u| :: u[m] == v[m + 1];
      if ClearFrom(u, 0) {
        assert forall i | 1 <= i < |v| :: !Occupied(v[i]);
        if Blocks(v[0], c) {
          assert ClearFrom(v, 1);
        }
      } else {
        var j :| 0 <= j < |u| && Occupied(u[j]);
        assert Occupied(v[j + 1]);
        if exists i | 0 <= i < |u| :: Blocks(u[i], c) && ClearFrom(u, i + 1) {
          var i :| 0 <= i < |u| && Blocks(u[i], c) && ClearFrom(u, i + 1);
          assert Blocks(v[i + 1], c) && ClearFrom(v, i + 2);
        }
        if exists i | 0 <= i < |v| :: Blocks(v[i], c) && ClearFrom(v, i + 1) {
          var i :| 0 <= i < |v| && Blocks(v[i], c) && ClearFrom(v, i + 1);
          assert i > 0;
          assert Blocks(u[i - 1], c) && ClearFrom(u, i);
        }
      }
    }
  }

  /** Corrected, the verdict is blocked as soon as ANY square opposes. */
  lemma {:induction false} FoldAnyIsSome(found: bool, v: seq<seq<Piece>>, c: Color)
    ensures FoldAny(found, v, c) <==> found || exists i | 0 <= i < |v| :: Blocks(v[i], c)
    decreases |v|
  {
    if v != [] {
      var u := v[1..];
      FoldAnyIsSome(found || Blocks(v[0], c), u, c);
      assert forall m | 0 <= m < |u| :: u[m] == v[m + 1];
      if exists i | 0 <= i < |v| :: Blocks(v[i], c) {
        var i :| 0 <= i < |v| && Blocks(v[i], c);
        if i > 0 {
          assert Blocks(u[i - 1], c);
        }
      }
    }
  }

  /** Ball.validMove as written: on the board, on a line, onto an occupied
      square, and the last occupied inner square does not oppose. */
  predicate ValidPassAsWritten(G: GridView, c: Color, sx: int, sy: int, dx: int, dy: int)
    requires Shaped(G)
  {
    && InBounds(sx, sy) && InBounds(dx, dy)
    && OnLine(sx, sy, dx, dy)
    && !IsEmpty(G[dy][dx])
    && !FoldAsWritten(false, Between(G, sx, sy, dx, dy), c)
  }

  /** Ball.validMove as evidently intended: no inner square opposes. */
  predicate ValidPass(G: GridView, c: Color, sx: int, sy: int, dx: int, dy: int)
    requires Shaped(G)
  {
    && InBounds(sx, sy) && InBounds(dx, dy)
    && OnLine(sx, sy, dx, dy)
    && !IsEmpty(G[dy][dx])
    && !FoldAny(false, Between(G, sx, sy, dx, dy), c)
  }

  /** The corrected rule is exactly "no opposing square on the way", and it
      rejects every pass the written rule rejects. */
  lemma {:induction false} ValidPassIsStricter(G: GridView, c: Color, sx: int, sy: int, dx: int, dy: int)
    requires Shaped(G)
    ensures ValidPass(G, c, sx, sy, dx, dy) <==>
      ValidPassAsWritten(G, c, sx, sy, dx, dy) &&
      forall i | 0 <= i < |Between(G, sx, sy, dx, dy)| :: !Blocks(Between(G, sx, sy, dx, dy)[i], c)
  {
    var v := Between(G, sx, sy, dx, dy);
    FoldAnyIsSome(false, v, c);
    FoldAsWrittenIsLast(false, v, c);
  }

  /** With nothing between source and destination, both rules accept any
      occupied destination on a line, whatever its colour: no rule checks
      that the ball lands on a friendly mover. */
  lemma {:induction false} ClearPathAcceptsAnyOccupied(G: GridView, c: Color, sx: int, sy: int, dx: int, dy: int)
    requires Shaped(G) && InBounds(sx, sy) && InBounds(dx, dy) && OnLine(sx, sy, dx, dy)
    requires ClearFrom(Between(G, sx, sy, dx, dy), 0)
    ensures ValidPass(G, c, sx, sy, dx, dy) <==> !IsEmpty(G[dy][dx])
    ensures ValidPassAsWritten(G, c, sx, sy, dx, dy) <==> !IsEmpty(G[dy][dx])
  {
    var v := Between(G, sx, sy, dx, dy);
    FoldAnyIsSome(false, v, c);
    FoldAsWrittenIsLast(false, v, c);
  }

  /** What one turn of the walk needs: the square under the walk is the
      next in-between square, and it lies on the board. */
  lemma {:induction false} BetweenAt(G: GridView, sx: int, sy: int, dx: int, dy: int, k: int)
    requires Shaped(G) && InBounds(sx, sy) && InBounds(dx, dy) && OnLine(sx, sy, dx, dy)
    requires 1 <= k <= Inner(sx, sy, dx, dy)
    ensures InBounds(PathPos(sx, sy, dx, dy, k).x, PathPos(sx, sy, dx, dy, k).y)
    ensures Between(G, sx, sy, dx, dy)[k - 1] == G[PathPos(sx, sy, dx, dy, k).y][PathPos(sx, sy, dx, dy, k).x]
  {
    PathFacts(sx, sy, dx, dy, k);
  }

  /** One turn of the walk from square (x, y), `k` steps from the source:
      the square is an inner square on the board, the next one is a
      signum-step further, and both folds advance by exactly this square. */
  lemma {:induction false} ScanStep(G: GridView, c: Color, sx: int, sy: int, dx: int, dy: int, k: int, x: int, y: int, found: bool)
    requires Shaped(G) && InBounds(sx, sy) && InBounds(dx, dy) && OnLine(sx, sy, dx, dy)
    requires 1 <= k <= Max(Span(sx, sy, dx, dy), 1)
    requires x == PathPos(sx, sy, dx, dy, k).x && y == PathPos(sx, sy, dx, dy, k).y && (x != dx || y != dy)
    ensures 0 <= y < |G| && 0 <= x < |G[y]|
    ensures k <= |Between(G, sx, sy, dx, dy)| && k + 1 <= Max(Span(sx, sy, dx, dy), 1)
    ensures x + Signum(dx - sx) == PathPos(sx, sy, dx, dy, k + 1).x
    ensures y + Signum(dy - sy) == PathPos(sx, sy, dx, dy, k + 1).y
    ensures FoldAsWritten(found, Between(G, sx, sy, dx, dy)[k - 1..], c) ==
      FoldAsWritten(Visit(found, G[y][x], c), Between(G, sx, sy, dx, dy)[k..], c)
    ensures FoldAny(found, Between(G, sx, sy, dx, dy)[k - 1..], c) ==
      FoldAny(found || Blocks(G[y][x], c), Between(G, sx, sy, dx, dy)[k..], c)
  {
    WalkAdvance(sx, sy, dx, dy, k);
    BetweenAt(G, sx, sy, dx, dy, k);
    FoldStep(found, Between(G, sx, sy, dx, dy), k - 1, c);
  }

  /** The walk over the inner squares in Ball.validMove as written, each
      occupied square overwriting `foundOpponent`. */
  method ScanAsWritten(G: GridView, c: Color, sx: int, sy: int, dx: int, dy: int) returns (foundOpponent: bool)
    requires Shaped(G)
    requires InBounds(sx, sy) && InBounds(dx, dy) && OnLine(sx, sy, dx, dy)
    ensures foundOpponent == FoldAsWritten(false, Between(G, sx, sy, dx, dy), c)
  {
    ghost var n := Span(sx, sy, dx, dy);
    var stepX := Signum(dx - sx);
    var stepY := Signum(dy - sy);
    var x := sx + stepX;
    var y := sy + stepY;
    PathStep(sx, sy, dx, dy, 0);
    foundOpponent := false;
    ghost var k := 1;
    ghost var v := Between(G, sx, sy, dx, dy);
    while x != dx || y != dy
      invariant 1 <= k <= Max(n, 1) && k - 1 <= |v|
      invariant x == PathPos(sx, sy, dx, dy, k).x && y == PathPos(sx, sy, dx, dy, k).y
      invariant FoldAsWritten(foundOpponent, v[k - 1..], c) == FoldAsWritten(false, v, c)
      decreases n - k
    {
      ScanStep(G, c, sx, sy, dx, dy, k, x, y, foundOpponent);
      if !IsEmpty(G[y][x]) {
        foundOpponent := !(G[y][x][0].color == c || G[y][x][0].color == NoColor);
      }
      x := x + stepX;
      y := y + stepY;
      k := k + 1;
    }
    WalkEnd(sx, sy, dx, dy, k);
  }

  /** The same walk as evidently intended: an opposing inner square blocks
      the pass for good. */
  method ScanAny(G: GridView, c: Color, sx: int, sy: int, dx: int, dy: int) returns (foundOpponent: bool)
    requires Shaped(G)
    requires InBounds(sx, sy) && InBounds(dx, dy) && OnLine(sx, sy, dx, dy)
    ensures foundOpponent == FoldAny(false, Between(G, sx, sy, dx, dy), c)
  {
    ghost var n := Span(sx, sy, dx, dy);
    var stepX := Signum(dx - sx);
    var stepY := Signum(dy - sy);
    var x := sx + stepX;
    var y := sy + stepY;
    PathStep(sx, sy, dx, dy, 0);
    foundOpponent := false;
    ghost var k := 1;
    ghost var v := Between(G, sx, sy, dx, dy);
    while x != dx || y != dy
      invariant 1 <= k <= Max(n, 1) && k - 1 <= |v|
      invariant x == PathPos(sx, sy, dx, dy, k).x && y == PathPos(sx, sy, dx, dy, k).y
      invariant FoldAny(foundOpponent, v[k - 1..], c) == FoldAny(false, v, c)
      decreases n - k
    {
      ScanStep(G, c, sx, sy, dx, dy, k, x, y, foundOpponent);
      if !IsEmpty(G[y][x]) && !(G[y][x][0].color == c || G[y][x][0].color == NoColor) {
        foundOpponent := true;
      }
      x := x + stepX;
      y := y + stepY;
      k := k + 1;
    }
    WalkEnd(sx, sy, dx, dy, k);
  }

  /** Ball.validMove exactly as written: bounds, then the line, then an
      occupied destination, then the overwriting walk. */
  method ValidMoveAsWritten(g: array2<seq<Piece>>, ball: Piece, sx: int, sy: int, dx: int, dy: int) returns (ok: bool)
    requires g.Length0 == HEIGHT && g.Length1 == WIDTH && Shaped(Contents(g))
    ensures ok == ValidPassAsWritten(Contents(g), ball.color, sx, sy, dx, dy)
  {
    if sx < 0 || sx > 6 || sy < 0 || sy > 7 || dx < 0 || dx > 6 || dy < 0 || dy > 7 {
      return false;
    }
    if sx == dx || sy == dy || Abs(sx - dx) == Abs(sy - dy) {
      if IsEmpty(g[dy, dx]) {
        return false;
      }
      var foundOpponent := ScanAsWritten(Contents(g), ball.color, sx, sy, dx, dy);
      return !foundOpponent;
    }
    return false;
  }

  /** Ball.validMove as evidently intended. */
  method ValidMove(g: array2<seq<Piece>>, ball: Piece, sx: int, sy: int, dx: int, dy: int) returns (ok: bool)
    requires g.Length0 == HEIGHT && g.Length1 == WIDTH && Shaped(Contents(g))
    ensures ok == ValidPass(Contents(g), ball.color, sx, sy, dx, dy)
  {
    if sx < 0 || sx > 6 || sy < 0 || sy > 7 || dx < 0 || dx > 6 || dy < 0 || dy > 7 {
      return false;
    }
    if sx == dx || sy == dy || Abs(sx - dx) == Abs(sy - dy) {
      if IsEmpty(g[dy, dx]) {
        return false;
      }
      var foundOpponent := ScanAny(Contents(g), ball.color, sx, sy, dx, dy);
      return !foundOpponent;
    }
    return false;
  }

  /** The board after Ball.move succeeds: the source's second piece (the
      ball) is added to the destination, then its first occurrence leaves
      the source. */
  function Passed(G: GridView, sx: int, sy: int, dx: int, dy: int): GridView
    requires Shaped(G) && InBounds(sx, sy) && InBounds(dx, dy) && |G[sy][sx]| >= 2
  {
    var b := G[sy][sx][1];
    var G1 := Put(G, dx, dy, SetPiece(G[dy][dx], b));
    Put(G1, sx, sy, RemoveFirst(G1[sy][sx], b))
  }

  /** Ball.move. It is reached through Cell.movePiece, which calls it on
      the second piece of a cell holding more than one piece, so that piece
      is `ball`. */
  method Move(g: array2<seq<Piece>>, ball: Piece, sx: int, sy: int, dx: int, dy: int) returns (ok: bool)
    requires g.Length0 == HEIGHT && g.Length1 == WIDTH && Shaped(Contents(g))
    requires InBounds(sx, sy) && InBounds(dx, dy)
    requires |g[sy, sx]| >= 2 && g[sy, sx][1] == ball
    modifies g
    ensures ok == ValidPass(old(Contents(g)), ball.color, sx, sy, dx, dy)
    ensures Contents(g) == if ok then Passed(old(Contents(g)), sx, sy, dx, dy) else old(Contents(g))
  {
    ok := ValidMove(g, ball, sx, sy, dx, dy);
    if ok {
      var carried := g[sy, sx][1];
      SetPieceAt(g, dx, dy, carried);
      RemovePieceAt(g, sx, sy, ball);
    }
  }

  /** Ball.move exactly as written, on the overwriting Ball.validMove. It
      makes every pass Move makes (ValidPassIsStricter), and also passes
      over an opposing piece that a later friendly one hides, as in
      OverwrittenBlock. */
  method MoveAsWritten(g: array2<seq<Piece>>, ball: Piece, sx: int, sy: int, dx: int, dy: int) returns (ok: bool)
    requires g.Length0 == HEIGHT && g.Length1 == WIDTH && Shaped(Contents(g))
    requires InBounds(sx, sy) && InBounds(dx, dy)
    requires |g[sy, sx]| >= 2 && g[sy, sx][1] == ball
    modifies g
    ensures ok == ValidPassAsWritten(old(Contents(g)), ball.color, sx, sy, dx, dy)
    ensures Contents(g) == if ok then Passed(old(Contents(g)), sx, sy, dx, dy) else old(Contents(g))
  {
    ok := ValidMoveAsWritten(g, ball, sx, sy, dx, dy);
    if ok {
      var carried := g[sy, sx][1];
      SetPieceAt(g, dx, dy, carried);
      RemovePieceAt(g, sx, sy, ball);
    }
  }

  /** On a tidy board the second piece of a cell is a ball, and the first
      is a real knight. */
  lemma {:induction false} CarriedIsBall(G: GridView, x: int, y: int)
    requires Tidy(G) && InBounds(x, y) && |G[y][x]| >= 2
    ensures G[y][x][1].Ball? && G[y][x][0].Knight? && G[y][x][0] != Marker
  {
  }

  /** A pass leaves the board's shape and every other cell alone. */
  lemma {:induction false} PassedElsewhere(G: GridView, sx: int, sy: int, dx: int, dy: int)
    requires Tidy(G) && InBounds(sx, sy) && InBounds(dx, dy) && |G[sy][sx]| >= 2
    ensures Shaped(Passed(G, sx, sy, dx, dy))
    ensures forall y, x | 0 <= y < HEIGHT && 0 <= x < WIDTH && Pos(x, y) != Pos(sx, sy) && Pos(x, y) != Pos(dx, dy)
      :: Passed(G, sx, sy, dx, dy)[y][x] == G[y][x]
  {
    var b := G[sy][sx][1];
    CarriedIsBall(G, sx, sy);
    var G1 := Put(G, dx, dy, SetPiece(G[dy][dx], b));
    assert |RemoveFirst(G1[sy][sx], b)| > 0 by {
      assert G1[sy][sx][0] != b;
      RemoveFirstAt(G1[sy][sx], b, 1);
    }
  }

  /** The ball lands on top of the destination. */
  lemma {:induction false} PassedDest(G: GridView, sx: int, sy: int, dx: int, dy: int)
    requires Tidy(G) && InBounds(sx, sy) && InBounds(dx, dy) && |G[sy][sx]| >= 2
    requires Pos(sx, sy) != Pos(dx, dy)
    ensures Passed(G, sx, sy, dx, dy)[dy][dx] == G[dy][dx] + [G[sy][sx][1]]
  {
    CarriedIsBall(G, sx, sy);
    assert SetPiece(G[dy][dx], G[sy][sx][1]) == G[dy][dx] + [G[sy][sx][1]];
  }

  /** The source keeps its knight and its other balls; a pass onto its own
      square moves the ball to the top. */
  lemma {:induction false} PassedSource(G: GridView, sx: int, sy: int, dx: int, dy: int)
    requires Tidy(G) && InBounds(sx, sy) && InBounds(dx, dy) && |G[sy][sx]| >= 2
    ensures Passed(G, sx, sy, dx, dy)[sy][sx] ==
      [G[sy][sx][0]] + G[sy][sx][2..] + (if Pos(sx, sy) == Pos(dx, dy) then [G[sy][sx][1]] else [])
  {
    var ps := G[sy][sx];
    var b := ps[1];
    CarriedIsBall(G, sx, sy);
    assert SetPiece(G[dy][dx], b) == G[dy][dx] + [b];
    var G1 := Put(G, dx, dy, G[dy][dx] + [b]);
    if Pos(sx, sy) == Pos(dx, dy) {
      assert G1[sy][sx] == ps + [b];
      assert (ps + [b])[..1] == [ps[0]];
      RemoveFirstAt(ps + [b], b, 1);
      assert (ps + [b])[2..] == ps[2..] + [b];
    } else {
      assert G1[sy][sx] == ps;
      assert ps[..1] == [ps[0]];
      RemoveFirstAt(ps, b, 1);
    }
  }

  /** A pass moves only the ball: the destination gains it on top, the
      source keeps its knight and any other balls, and no other cell
      changes. */
  lemma {:induction false} PassedCells(G: GridView, sx: int, sy: int, dx: int, dy: int)
    requires Tidy(G) && InBounds(sx, sy) && InBounds(dx, dy) && |G[sy][sx]| >= 2
    ensures Shaped(Passed(G, sx, sy, dx, dy))
    ensures var H := Passed(G, sx, sy, dx, dy);
      && (Pos(sx, sy) != Pos(dx, dy) ==> H[dy][dx] == G[dy][dx] + [G[sy][sx][1]])
      && H[sy][sx] == [G[sy][sx][0]] + G[sy][sx][2..] + (if Pos(sx, sy) == Pos(dx, dy) then [G[sy][sx][1]] else [])
      && forall y, x | 0 <= y < HEIGHT && 0 <= x < WIDTH && Pos(x, y) != Pos(sx, sy) && Pos(x, y) != Pos(dx, dy)
           :: H[y][x] == G[y][x]
  {
    PassedElsewhere(G, sx, sy, dx, dy);
    PassedSource(G, sx, sy, dx, dy);
    if Pos(sx, sy) != Pos(dx, dy) {
      PassedDest(G, sx, sy, dx, dy);
    }
  }

  /** A legal pass keeps the board tidy. */
  lemma {:induction false} PassKeepsTidy(G: GridView, c: Color, sx: int, sy: int, dx: int, dy: int)
    requires Tidy(G) && InBounds(sx, sy) && InBounds(dx, dy) && |G[sy][sx]| >= 2 && ValidPass(G, c, sx, sy, dx, dy)
    ensures Tidy(Passed(G, sx, sy, dx, dy))
  {
    PassedCells(G, sx, sy, dx, dy);
    CarriedIsBall(G, sx, sy);
    TidyEmpty(G[dy][dx]);
    var H := Passed(G, sx, sy, dx, dy);
    assert TidyCell(H[sy][sx]);
    assert TidyCell(H[dy][dx]);
  }

  /** A pass keeps every piece on the board. */
  lemma {:induction false} PassKeepsPieces(G: GridView, sx: int, sy: int, dx: int, dy: int)
    requires Tidy(G) && InBounds(sx, sy) && InBounds(dx, dy) && |G[sy][sx]| >= 2
    ensures Bag(Passed(G, sx, sy, dx, dy)) == Bag(G)
  {
    CarriedIsBall(G, sx, sy);
    PassMovesBall(G, sx, sy, dx, dy);
  }

  /** The bag arithmetic of a pass: the destination gains the carried ball
      and the source gives up one copy of it. */
  lemma {:induction false} PassMovesBall(G: GridView, sx: int, sy: int, dx: int, dy: int)
    requires Shaped(G) && InBounds(sx, sy) && InBounds(dx, dy) && |G[sy][sx]| >= 2
    requires G[sy][sx][1].Ball?
    ensures Bag(Passed(G, sx, sy, dx, dy)) == Bag(G)
  {
    var b := G[sy][sx][1];
    var D := SetPiece(G[dy][dx], b);
    assert D == G[dy][dx] + [b];
    var G1 := Put(G, dx, dy, D);
    PutBag(G, dx, dy, D);
    var A := Bag(G1);
    assert A == Bag(G) + multiset{b};
    var S := G1[sy][sx];
    assert b in S by {
      if Pos(sx, sy) == Pos(dx, dy) {
        assert S == D;
      } else {
        assert S == G[sy][sx];
      }
    }
    var R := RemoveFirst(S, b);
    RemoveFirstBag(S, b);
    PutBag(G1, sx, sy, R);
    BagRestore(Bag(G), A, multiset(S), multiset(R), b);
  }

  /** Taking `b` back out of a bag it was added to, by swapping a part `s`
      for the same part without `b`. */
  lemma {:induction false} BagRestore(m: multiset<Piece>, a: multiset<Piece>, s: multiset<Piece>, r: multiset<Piece>, b: Piece)
    requires a == m + multiset{b} && s <= a && r + multiset{b} == s
    ensures a - s + r == m
  {
    assert a - s + r + multiset{b} == a;
  }

  /** A position where the two rules disagree: the white ball on (3, 7)
      passed up column 3 to (3, 4) over a black knight on (3, 6) and a white
      knight on (3, 5). */
  function ExampleSquare(x: int, y: int): seq<Piece>
  {
    if x == 3 && y == 7 then [Knight(White, 3), Ball(White, 6)]
    else if x == 3 && y == 6 then [Knight(Black, 9)]
    else if x == 3 && y == 5 then [Knight(White, 1)]
    else if x == 3 && y == 4 then [Knight(White, 2)]
    else [Marker]
  }

  function ExampleGrid(): GridView
  {
    seq(HEIGHT, y => seq(WIDTH, x => ExampleSquare(x, y)))
  }

  /** As written, the later friendly knight overwrites the verdict of the
      opposing knight before it, so the pass is accepted; the corrected
      rule rejects it. */
  lemma {:induction false} OverwrittenBlock()
    ensures Tidy(ExampleGrid())
    ensures ValidPassAsWritten(ExampleGrid(), White, 3, 7, 3, 4)
    ensures !ValidPass(ExampleGrid(), White, 3, 7, 3, 4)
  {
    var G := ExampleGrid();
    var v := Between(G, 3, 7, 3, 4);
    assert |v| == 2;
    assert v[0] == [Knight(Black, 9)];
    assert v[1] == [Knight(White, 1)];
    assert v[1..][1..] == [];
  }
}
