/** A player (Player.java): a colour, five slots pointing at the cells of its
    knights, the cell of its ball, and the last error message. */
module Players {
  import opened Common
  import opened Pieces
  import opened Cells
  import opened CellMoves

  /** The message Player.makeMove records when a move is refused. */
  const IllegalMove: string := "Illegal move try again"

  /** The knight that slot `i` of a player of colour `c` follows: white
      knights are numbered 1..5 and black knights 7..11. */
  function KnightIn(c: Color, i: int): (k: Piece)
    ensures k.Knight? && k.color == c
    ensures c == White && 0 <= i < 5 ==> ProperKnight(k)
    ensures c == Black && 0 <= i < 5 ==> ProperKnight(k)
  {
    Knight(c, if c == White then i + 1 else i + 7)
  }

  /** The slots after Player.makeMove moved knight `k` to `dest`: the
      white knight `id` lives in slot `id - 1`, the black knight `id` in
      slot `id - 7`; a colourless piece touches no slot. */
  function Reslot(slots: seq<Option<Pos>>, k: Piece, dest: Pos): (r: seq<Option<Pos>>)
    requires |slots| == 5 && ProperKnight(k)
    ensures |r| == 5
    ensures k.color != NoColor ==> r[if k.color == White then k.id - 1 else k.id - 7] == Some(dest)
    ensures forall i | 0 <= i < 5 && KnightIn(k.color, i) != k :: r[i] == slots[i]
  {
    if k.color == White then slots[k.id - 1 := Some(dest)]
    else if k.color == Black then slots[k.id - 7 := Some(dest)]
    else slots
  }

  /** The ownership invariant of a player of colour `c`: every slot names a
      square on the board whose first piece is the knight that slot follows. */
  predicate Owns(G: GridView, c: Color, slots: seq<Option<Pos>>)
  {
    && Shaped(G)
    && c != NoColor
    && |slots| == 5
    && forall i | 0 <= i < 5 ::
         slots[i].Some? && InBounds(slots[i].value.x, slots[i].value.y) && At(G, slots[i].value)[0] == KnightIn(c, i)
  }

  /** A player as a value: what Player's fields hold at one moment. */
  datatype PlayerView = PlayerView(
    id: int, color: Color, slots: seq<Option<Pos>>, ball: Option<Pos>, notValid: Option<string>, isCurrent: bool)

  /** What Player.makeMove returns, and the board and player it leaves. */
  datatype MoveOutcome = MoveOutcome(ok: bool, grid: GridView, player: PlayerView)

  /** Player.makeMove on values. The source must be one of the player's
      cells (Cell.equals on one board is equality of positions); the cell
      then moves its piece. A pass records the destination as the ball's
      cell; a knight step records it in the slot of the knight that moved; a
      refused move records the error message. */
  function MakeMoveOn(G: GridView, p: PlayerView, s: Pos, d: Pos): (r: MoveOutcome)
    requires Tidy(G) && |p.slots| == 5 && InBounds(s.x, s.y) && InBounds(d.x, d.y)
    ensures r.ok <==> Some(s) in p.slots && CanMove(G, s.x, s.y, d.x, d.y)
    ensures Tidy(r.grid) && Bag(r.grid) == Bag(G)
    ensures |r.player.slots| == 5
    ensures r.player.id == p.id && r.player.color == p.color && r.player.isCurrent == p.isCurrent
    ensures !r.ok ==> r.grid == G && r.player.slots == p.slots && r.player.ball == p.ball
    ensures r.player.notValid == if Some(s) in p.slots && !r.ok then Some(IllegalMove) else p.notValid
  {
    if Some(s) !in p.slots then MoveOutcome(false, G, p)
    else if !CanMove(G, s.x, s.y, d.x, d.y) then MoveOutcome(false, G, p.(notValid := Some(IllegalMove)))
    else
      var H := AfterMove(G, s.x, s.y, d.x, d.y);
      MoveKeepsTidy(G, s.x, s.y, d.x, d.y);
      MoveKeepsPieces(G, s.x, s.y, d.x, d.y);
      TidyAt(H, d.x, d.y);
      var D := H[d.y][d.x];
      if |D| > 1 then MoveOutcome(true, H, p.(ball := Some(d)))
      else MoveOutcome(true, H, p.(slots := Reslot(p.slots, D[0], d)))
  }

  class Player {
    const id: int
    const color: Color
    /** Player.pieces, a `Cell[5]`: `None` until the board fills it. */
    const pieces: array<Option<Pos>>
    /** Player.ball: the cell holding this player's ball. */
    var ball: Option<Pos>
    var notValid: Option<string>
    var isCurrent: bool

    /** The player's fields as a value. */
    function View(): PlayerView
      reads this, pieces
    {
      PlayerView(id, color, pieces[..], ball, notValid, isCurrent)
    }

    /** Player(id, color): five empty slots, no ball, not current. */
    constructor (id: int, color: Color)
      ensures fresh(pieces)
      ensures View() == PlayerView(id, color, [None, None, None, None, None], None, None, false)
    {
      this.id := id;
      this.color := color;
      this.pieces := new Option<Pos>[5](_ => None);
      this.ball := None;
      this.notValid := None;
      this.isCurrent := false;
    }

    /** Player.makeMove on the board array `g`: the result, the new board
        and the player's new fields are those of `MakeMoveOn`. */
    method MakeMove(g: array2<seq<Piece>>, source: Pos, dest: Pos) returns (ok: bool)
      requires g.Length0 == HEIGHT && g.Length1 == WIDTH && Tidy(Contents(g))
      requires pieces.Length == 5
      requires InBounds(source.x, source.y) && InBounds(dest.x, dest.y)
      modifies g, this, pieces
      ensures MoveOutcome(ok, Contents(g), View()) == MakeMoveOn(old(Contents(g)), old(View()), source, dest)
    {
      ok := false;
      if Some(source) in pieces[..] {
        ghost var G := Contents(g);
        ok := MovePiece(g, source.x, source.y, dest.x, dest.y);
        if ok {
          MoveKeepsTidy(G, source.x, source.y, dest.x, dest.y);
          TidyAt(Contents(g), dest.x, dest.y);
          Record(g[dest.y, dest.x], dest);
        } else {
          notValid := Some(IllegalMove);
        }
      }
    }

    /** Player.setBall. */
    method SetBall(b: Pos)
      modifies this
      ensures View() == old(View()).(ball := Some(b))
    {
      ball := Some(b);
    }

    /** The bookkeeping after a successful move onto `dest`, whose cell now
        holds `d`: two or more pieces mean the ball arrived, one piece means
        a knight did. */
    method Record(d: seq<Piece>, dest: Pos)
      requires pieces.Length == 5 && TidyCell(d)
      modifies this, pieces
      ensures View() == if |d| > 1 then old(View()).(ball := Some(dest))
                        else old(View()).(slots := Reslot(old(pieces[..]), d[0], dest))
    {
      var p := d[0];
      if |d| > 1 {
        ball := Some(dest);
      } else {
        if p.color == White {
          pieces[p.id - 1] := Some(dest);
        }
        if p.color == Black {
          pieces[p.id - 7] := Some(dest);
        }
      }
    }

    /** Player.isWinner: the ball's cell carries, second, a ball of this
        player's colour, and lies on the far row: row 0 for white, row 7 for
        black. */
    predicate IsWinner(G: GridView)
      reads this
      requires Shaped(G) && ball.Some? && InBounds(ball.value.x, ball.value.y)
    {
      var c := At(G, ball.value);
      if |c| > 1 then
        if c[1].color == White && color == White then ball.value.y == 0
        else if c[1].color == Black && color == Black then ball.value.y == 7
        else false
      else false
    }
  }

  /** The home row a player's ball must reach. */
  function GoalRow(c: Color): int
  {
    if c == White then 0 else 7
  }

  /** Player.isWinner, stated without its branches: a coloured player wins
      exactly when a ball of its colour is the second piece of the ball's
      cell and that cell is on the player's goal row. */
  lemma {:induction false} IsWinnerMeans(p: Player, G: GridView)
    requires Shaped(G) && p.ball.Some? && InBounds(p.ball.value.x, p.ball.value.y)
    ensures p.IsWinner(G) <==>
      var c := At(G, p.ball.value);
      && |c| > 1
      && c[1].color == p.color
      && p.color != NoColor
      && p.ball.value.y == GoalRow(p.color)
  {
  }

  /** A pass leaves every cell's first piece where it was. */
  lemma {:induction false} PassKeepsSlots(G: GridView, c: Color, slots: seq<Option<Pos>>, sx: int, sy: int, dx: int, dy: int)
    requires Tidy(G) && InBounds(sx, sy) && InBounds(dx, dy) && |G[sy][sx]| > 1
    requires Owns(G, c, slots)
    ensures var H := AfterMove(G, sx, sy, dx, dy);
      Shaped(H) && |H[dy][dx]| > 1 && Owns(H, c, slots)
  {
    var H := AfterMove(G, sx, sy, dx, dy);
    Balls.PassedCells(G, sx, sy, dx, dy);
    forall i | 0 <= i < 5
      ensures At(H, slots[i].value)[0] == KnightIn(c, i)
    {
      var p := slots[i].value;
      if p == Pos(dx, dy) && p != Pos(sx, sy) {
        assert H[dy][dx] == G[dy][dx] + [G[sy][sx][1]];
      }
    }
  }

  /** A knight step moves the stepping knight's slot, if it is this
      player's knight, and no other. */
  lemma {:induction false} StepKeepsSlots(G: GridView, c: Color, slots: seq<Option<Pos>>, sx: int, sy: int, dx: int, dy: int)
    requires Tidy(G) && InBounds(sx, sy) && InBounds(dx, dy) && |G[sy][sx]| == 1
    requires Knights.ValidMove(G, sx, sy, dx, dy)
    requires Owns(G, c, slots)
    ensures var H := AfterMove(G, sx, sy, dx, dy);
      && Shaped(H) && H[dy][dx] == [G[sy][sx][0]]
      && Owns(H, c, if H[dy][dx][0].color == c then Reslot(slots, H[dy][dx][0], Pos(dx, dy)) else slots)
  {
    var H := AfterMove(G, sx, sy, dx, dy);
    Knights.MovedCells(G, sx, sy, dx, dy);
    TidyEmpty(G[dy][dx]);
    var k := G[sy][sx][0];
    var S := if k.color == c then Reslot(slots, k, Pos(dx, dy)) else slots;
    forall i | 0 <= i < 5
      ensures S[i].Some? && InBounds(S[i].value.x, S[i].value.y) && At(H, S[i].value)[0] == KnightIn(c, i)
    {
      var p := slots[i].value;
      if KnightIn(c, i) == k {
        assert S[i] == Some(Pos(dx, dy));
      } else {
        assert S[i] == slots[i];
        assert p != Pos(sx, sy);
        assert p != Pos(dx, dy);
      }
    }
  }

  /** The ball reference names a square on the board holding a knight with
      at least one ball above it. */
  predicate HoldsBall(G: GridView, ball: Option<Pos>)
  {
    && Shaped(G)
    && ball.Some? && InBounds(ball.value.x, ball.value.y)
    && |At(G, ball.value)| > 1
  }

  /** Player.makeMove keeps the mover's records true: when the slots name
      the player's knights and the ball reference a ball carrier, they still
      do afterwards, whatever the move. */
  lemma {:induction false} MakeMoveKeepsRecords(G: GridView, p: PlayerView, s: Pos, d: Pos)
    requires Tidy(G) && InBounds(s.x, s.y) && InBounds(d.x, d.y) && Owns(G, p.color, p.slots)
    ensures var r := MakeMoveOn(G, p, s, d);
      && Owns(r.grid, p.color, r.player.slots)
      && (HoldsBall(G, p.ball) ==> HoldsBall(r.grid, r.player.ball))
  {
    var r := MakeMoveOn(G, p, s, d);
    if r.ok {
      var H := AfterMove(G, s.x, s.y, d.x, d.y);
      var c := p.color;
      var i :| 0 <= i < 5 && p.slots[i] == Some(s);
      assert G[s.y][s.x][0] == KnightIn(c, i);
      if |G[s.y][s.x]| > 1 {
        PassKeepsSlots(G, c, p.slots, s.x, s.y, d.x, d.y);
      } else {
        StepKeepsSlots(G, c, p.slots, s.x, s.y, d.x, d.y);
        TidyEmpty(G[d.y][d.x]);
        if HoldsBall(G, p.ball) {
          var b := p.ball.value;
          assert b != s && b != d;
          Knights.MovedCells(G, s.x, s.y, d.x, d.y);
          assert H[b.y][b.x] == G[b.y][b.x];
        }
      }
    }
  }

  /** A move by one player leaves the other colour's slots true: a pass
      moves no knight, and a knight step moves one of the mover's own. */
  lemma {:induction false} MakeMoveKeepsOthers(G: GridView, p: PlayerView, s: Pos, d: Pos, c: Color, slots: seq<Option<Pos>>)
    requires Tidy(G) && InBounds(s.x, s.y) && InBounds(d.x, d.y) && Owns(G, p.color, p.slots)
    requires Owns(G, c, slots) && c != p.color
    ensures Owns(MakeMoveOn(G, p, s, d).grid, c, slots)
  {
    var r := MakeMoveOn(G, p, s, d);
    if r.ok {
      var i :| 0 <= i < 5 && p.slots[i] == Some(s);
      assert G[s.y][s.x][0] == KnightIn(p.color, i);
      if |G[s.y][s.x]| > 1 {
        PassKeepsSlots(G, c, slots, s.x, s.y, d.x, d.y);
      } else {
        StepKeepsSlots(G, c, slots, s.x, s.y, d.x, d.y);
      }
    }
  }
}
