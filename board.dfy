/** The board (Board.java): the 8 x 7 grid of cells, the two players and the
    current player. */
module Boards {
  import opened Common
  import opened Pieces
  import opened Cells
  import opened Players

  /** The squares Board.buildBoard fills first: columns 1..5 of both home
      rows. */
  predicate HomeCell(x: int, y: int)
  {
    (y == HEIGHT - 1 || y == 0) && 1 <= x < WIDTH - 1
  }

  /** The starting contents of a square: white knights 1..5 on row 7, black
      knights 7..11 on row 0, each ball above the knight of column 3, and a
      marker everywhere else, corners of the home rows included. */
  function InitialSquare(x: int, y: int): seq<Piece>
  {
    if y == HEIGHT - 1 && 1 <= x < WIDTH - 1 then
      [Knight(White, x)] + (if x == WIDTH / 2 then [Ball(White, 6)] else [])
    else if y == 0 && 1 <= x < WIDTH - 1 then
      [Knight(Black, 6 + x)] + (if x == WIDTH / 2 then [Ball(Black, 12)] else [])
    else [Marker]
  }

  function InitialGrid(): GridView
  {
    seq(HEIGHT, y => seq(WIDTH, x => InitialSquare(x, y)))
  }

  /** A fresh `Cell[][]`: every reference `null`, written as an empty list. */
  function NullGrid(): GridView
  {
    seq(HEIGHT, y => seq(WIDTH, x => []))
  }

  /** The slots Board.buildBoard gives a player: `pieces[i - 1]` is the cell
      of column `i` on the player's home row. */
  function HomeSlots(c: Color): seq<Option<Pos>>
  {
    seq(5, i => Some(Pos(i + 1, HomeRow(c))))
  }

  /** The slots up to column `i` extend those up to column `i - 1`. */
  lemma {:induction false} HomeSlotsStep(c: Color, i: int)
    requires 1 <= i <= 5
    ensures HomeSlots(c)[..i] == HomeSlots(c)[..i - 1] + [Some(Pos(i, HomeRow(c)))]
  {
  }

  /** The knights of columns 1..n of the home row of `c`, in column order. */
  function RowKnights(c: Color, n: nat): seq<Piece>
  {
    if n == 0 then [] else RowKnights(c, n - 1) + [Knight(c, HomeId(c, n))]
  }

  /** Board.pieces after buildBoard: the knights of the white row, then
      those of the black row (the balls are not listed). */
  function HomeKnights(): seq<Piece>
  {
    RowKnights(White, 5) + RowKnights(Black, 5)
  }

  /** The ten knights are white 1..5 and black 7..11, each id once. */
  lemma {:induction false} HomeKnightsAre()
    ensures HomeKnights() == [Knight(White, 1), Knight(White, 2), Knight(White, 3), Knight(White, 4), Knight(White, 5),
                              Knight(Black, 7), Knight(Black, 8), Knight(Black, 9), Knight(Black, 10), Knight(Black, 11)]
  {
    assert RowKnights(White, 2) == [Knight(White, 1), Knight(White, 2)];
    assert RowKnights(White, 4) == RowKnights(White, 2) + [Knight(White, 3), Knight(White, 4)];
    assert RowKnights(Black, 2) == [Knight(Black, 7), Knight(Black, 8)];
    assert RowKnights(Black, 4) == RowKnights(Black, 2) + [Knight(Black, 9), Knight(Black, 10)];
  }

  /** The home row of a colour and the id of its knight in column `x`. */
  function HomeRow(c: Color): int
  {
    if c == White then HEIGHT - 1 else 0
  }

  function HomeId(c: Color, x: int): int
  {
    if c == White then x else 6 + x
  }

  /** A grid of the board's shape (every cell present, possibly `null`). */
  predicate Sized(G: GridView)
  {
    |G| == HEIGHT && forall y | 0 <= y < HEIGHT :: |G[y]| == WIDTH
  }

  /** The first two loops of Board.buildBoard, after the columns below
      `n`: columns 1..n-1 of the home row of `c` each hold a new cell with
      the knight of that column. */
  function WithHomeRow(G: GridView, c: Color, n: int): (H: GridView)
    requires Sized(G)
    ensures Sized(H)
  {
    seq(HEIGHT, y requires 0 <= y < HEIGHT => seq(WIDTH, x requires 0 <= x < WIDTH =>
      if y == HomeRow(c) && 1 <= x < n then [Knight(c, HomeId(c, x))] else G[y][x]))
  }

  /** Before the first column nothing has changed. */
  lemma {:induction false} WithHomeRowNone(G: GridView, c: Color)
    requires Sized(G)
    ensures WithHomeRow(G, c, 1) == G
  {
    var A := WithHomeRow(G, c, 1);
    forall y | 0 <= y < HEIGHT
      ensures A[y] == G[y]
    {
    }
  }

  /** One more column of the home row. */
  lemma {:induction false} WithHomeRowStep(G: GridView, c: Color, n: int)
    requires Sized(G) && 1 <= n < WIDTH
    ensures Put(WithHomeRow(G, c, n), n, HomeRow(c), [Knight(c, HomeId(c, n))]) == WithHomeRow(G, c, n + 1)
  {
    var A := Put(WithHomeRow(G, c, n), n, HomeRow(c), [Knight(c, HomeId(c, n))]);
    var B := WithHomeRow(G, c, n + 1);
    forall y | 0 <= y < HEIGHT
      ensures A[y] == B[y]
    {
    }
  }

  /** The last loop of Board.buildBoard: every `null` cell gets a marker. */
  function Filled(G: GridView): (H: GridView)
    requires Sized(G)
    ensures Sized(H)
  {
    seq(HEIGHT, y requires 0 <= y < HEIGHT => seq(WIDTH, x requires 0 <= x < WIDTH =>
      if G[y][x] == [] then [Marker] else G[y][x]))
  }

  /** Board.buildBoard on a grid `G`: both home rows, the black ball then
      the white ball on column 3 of their home rows, then the markers. */
  function Built(G: GridView): GridView
    requires Sized(G)
  {
    var B := WithHomeRow(WithHomeRow(G, White, WIDTH - 1), Black, WIDTH - 1);
    var B1 := Put(B, WIDTH / 2, 0, SetPiece(B[0][WIDTH / 2], Ball(Black, 12)));
    var B2 := Put(B1, WIDTH / 2, HEIGHT - 1, SetPiece(B1[HEIGHT - 1][WIDTH / 2], Ball(White, 6)));
    Filled(B2)
  }

  /** `Built` is the composition of the steps of Board.buildBoard. */
  lemma {:induction false} BuiltSteps(G: GridView, G1: GridView, G2: GridView, G3: GridView, G4: GridView)
    requires Sized(G)
    requires G1 == WithHomeRow(G, White, WIDTH - 1) && G2 == WithHomeRow(G1, Black, WIDTH - 1)
    requires G3 == Put(G2, WIDTH / 2, 0, SetPiece(G2[0][WIDTH / 2], Ball(Black, 12)))
    requires G4 == Put(G3, WIDTH / 2, HEIGHT - 1, SetPiece(G3[HEIGHT - 1][WIDTH / 2], Ball(White, 6)))
    ensures Sized(G4) && Filled(G4) == Built(G)
  {
  }

  /** The whole board as a value: the grid, both players, and which of the
      two Board.currPlayer refers to. */
  datatype BoardView = BoardView(grid: GridView, players: seq<PlayerView>, cur: int)

  /** The board invariant: a tidy grid, white (id 1) and black (id 2) in
      `players[0]` and `players[1]`, exactly one of them current and
      referred to by `cur`, slots naming each player's knights, and a ball
      reference on the board for each. */
  predicate ViewValid(v: BoardView)
  {
    && Tidy(v.grid)
    && |v.players| == 2
    && v.players[0].id == 1 && v.players[0].color == White
    && v.players[1].id == 2 && v.players[1].color == Black
    && (v.cur == 0 || v.cur == 1)
    && v.players[v.cur].isCurrent && !v.players[1 - v.cur].isCurrent
    && Owns(v.grid, White, v.players[0].slots)
    && Owns(v.grid, Black, v.players[1].slots)
    && v.players[0].ball.Some? && InBounds(v.players[0].ball.value.x, v.players[0].ball.value.y)
    && v.players[1].ball.Some? && InBounds(v.players[1].ball.value.x, v.players[1].ball.value.y)
  }

  /** The board `new Board()` builds. */
  function InitialView(): BoardView
  {
    BoardView(
      InitialGrid(),
      [PlayerView(1, White, HomeSlots(White), Some(Pos(3, 7)), None, true),
       PlayerView(2, Black, HomeSlots(Black), Some(Pos(3, 0)), None, false)],
      0)
  }

  /** The new board is well formed, white moves first, each ball sits above
      its own knight, and nobody stands on a goal row with its ball. */
  lemma {:induction false} InitialViewValid()
    ensures ViewValid(InitialView())
    ensures InitialView().cur == 0
    ensures HoldsBall(InitialGrid(), Some(Pos(3, 7))) && InitialGrid()[7][3][1] == Ball(White, 6)
    ensures HoldsBall(InitialGrid(), Some(Pos(3, 0))) && InitialGrid()[0][3][1] == Ball(Black, 12)
    ensures forall y, x | 0 <= y < HEIGHT && 0 <= x < WIDTH && !HomeCell(x, y) :: InitialGrid()[y][x] == [Marker]
  {
    var G := InitialGrid();
    forall y, x | 0 <= y < HEIGHT && 0 <= x < WIDTH
      ensures TidyCell(G[y][x])
    {
      assert G[y][x] == InitialSquare(x, y);
    }
  }

  /** Board.buildBoard on a fresh array yields the starting position. */
  lemma {:induction false} BuiltFromNull()
    ensures Built(NullGrid()) == InitialGrid()
  {
    var B := Built(NullGrid());
    var I := InitialGrid();
    forall y | 0 <= y < HEIGHT
      ensures B[y] == I[y]
    {
      forall x | 0 <= x < WIDTH
        ensures B[y][x] == I[y][x]
      {
      }
    }
  }

  /** Board.switchTurn: if white is current, black becomes current and
      white not; otherwise white becomes current and black not. */
  function SwitchTurnView(v: BoardView): BoardView
    requires |v.players| == 2
  {
    if v.players[0].isCurrent then
      v.(cur := 1, players := [v.players[0].(isCurrent := false), v.players[1].(isCurrent := true)])
    else
      v.(cur := 0, players := [v.players[0].(isCurrent := true), v.players[1].(isCurrent := false)])
  }

  /** Switching the turn keeps the board well formed, hands the turn to the
      other player and touches nothing but the two current flags. */
  lemma {:induction false} SwitchTurnFlips(v: BoardView)
    requires ViewValid(v)
    ensures var w := SwitchTurnView(v);
      && ViewValid(w)
      && w.cur == 1 - v.cur
      && w.grid == v.grid
      && forall i | 0 <= i < 2 :: w.players[i] == v.players[i].(isCurrent := i == w.cur)
  {
  }

  /** Switching the turn twice restores the board exactly. */
  lemma {:induction false} SwitchTurnTwice(v: BoardView)
    requires ViewValid(v)
    ensures SwitchTurnView(SwitchTurnView(v)) == v
  {
    var w := SwitchTurnView(SwitchTurnView(v));
    assert w.players == [w.players[0], w.players[1]];
    assert v.players == [v.players[0], v.players[1]];
  }

  /** Board.validPosition(row, col): a cell of exactly two pieces is
      selectable when it is the current player's ball cell; any other cell
      when it is one of the current player's slots. */
  predicate ValidPosition(v: BoardView, row: int, col: int)
    requires ViewValid(v) && InBounds(col, row)
  {
    var cell := v.grid[row][col];
    if |cell| == 2 then v.players[v.cur].ball == Some(Pos(col, row))
    else Some(Pos(col, row)) in v.players[v.cur].slots
  }

  /** What a selectable cell holds: a selectable cell of two pieces is the
      current player's ball cell; any other selectable cell has one of the
      current player's own knights first. */
  lemma {:induction false} ValidPositionOwned(v: BoardView, row: int, col: int)
    requires ViewValid(v) && InBounds(col, row) && ValidPosition(v, row, col)
    ensures |v.grid[row][col]| == 2 ==> v.players[v.cur].ball == Some(Pos(col, row))
    ensures |v.grid[row][col]| != 2 ==>
      exists i | 0 <= i < 5 :: v.grid[row][col][0] == KnightIn(v.players[v.cur].color, i)
  {
    var p := v.players[v.cur];
    if |v.grid[row][col]| != 2 {
      var i :| 0 <= i < 5 && p.slots[i] == Some(Pos(col, row));
      assert At(v.grid, Pos(col, row))[0] == KnightIn(p.color, i);
    }
  }

  class Board {
    /** Board.board; the array itself is never replaced. */
    const board: array2<seq<Piece>>
    /** Board.players, a `Player[2]`; empty until initPlayers fills it. */
    var players: seq<Player>
    var currPlayer: Player?
    /** Board.pieces: every knight created by buildBoard. */
    var pieces: seq<Piece>

    /** The board's fields as a value. */
    function View(): BoardView
      reads this, board, players, set p | p in players :: p.pieces
      requires |players| == 2
    {
      BoardView(Contents(board), [players[0].View(), players[1].View()], if currPlayer == players[0] then 0 else 1)
    }

    predicate Valid()
      reads this, board, players, set p | p in players :: p.pieces
    {
      && board.Length0 == HEIGHT && board.Length1 == WIDTH
      && |players| == 2
      && players[0] != players[1] && players[0].pieces != players[1].pieces
      && players[0].pieces.Length == 5 && players[1].pieces.Length == 5
      && (currPlayer == players[0] || currPlayer == players[1])
      && ViewValid(View())
    }

    /** new Board(): initPlayers, then buildBoard, on a grid of `null`
        cells. */
    constructor ()
      ensures Valid()
      ensures View() == InitialView()
      ensures pieces == HomeKnights()
    {
      board := new seq<Piece>[HEIGHT, WIDTH]((y, x) => []);
      pieces := [];
      players := [];
      currPlayer := null;
      new;
      ContentsIs(board, NullGrid());
      InitPlayers();
      BuildBoard();
      BuiltFromNull();
      InitialViewValid();
    }

    /** Board.initPlayers: a fresh white player 1, current, and a fresh black
        player 2. */
    method InitPlayers()
      modifies this
      ensures |players| == 2 && fresh(players[0]) && fresh(players[1])
      ensures fresh(players[0].pieces) && fresh(players[1].pieces) && players[0].pieces != players[1].pieces
      ensures players[0].View() == PlayerView(1, White, [None, None, None, None, None], None, None, true)
      ensures players[1].View() == PlayerView(2, Black, [None, None, None, None, None], None, None, false)
      ensures currPlayer == players[0]
      ensures pieces == old(pieces)
    {
      var white := new Player(1, White);
      var black := new Player(2, Black);
      players := [white, black];
      currPlayer := players[0];
      currPlayer.isCurrent := true;
    }

    /** Board.buildBoard: the white knights on row 7, the black knights on
        row 0, each player's slots, the two balls, then a marker in every
        cell still `null`. */
    method BuildBoard()
      requires board.Length0 == HEIGHT && board.Length1 == WIDTH
      requires |players| == 2 && players[0] != players[1] && players[0].pieces != players[1].pieces
      requires players[0].pieces.Length == 5 && players[1].pieces.Length == 5
      modifies board, this`pieces, players[0], players[1], players[0].pieces, players[1].pieces
      ensures Contents(board) == Built(old(Contents(board)))
      ensures pieces == old(pieces) + HomeKnights()
      ensures players == old(players) && currPlayer == old(currPlayer)
      ensures players[0].View() == old(players[0].View()).(slots := HomeSlots(White), ball := Some(Pos(3, 7)))
      ensures players[1].View() == old(players[1].View()).(slots := HomeSlots(Black), ball := Some(Pos(3, 0)))
    {
      var white := players[0];
      var black := players[1];
      ghost var PL := players;
      ghost var CP := currPlayer;
      ghost var G := Contents(board);
      ghost var W := white.View();
      ghost var K := black.View();
      PlaceHomeRow(white, White);
      ghost var G1 := Contents(board);
      PlaceHomeRow(black, Black);
      ghost var G2 := Contents(board);
      assert players == PL && currPlayer == CP;
      assert white.View() == W.(slots := HomeSlots(White));
      assert black.View() == K.(slots := HomeSlots(Black));
      assert pieces == old(pieces) + HomeKnights();
      SetPieceAt(board, WIDTH / 2, 0, Ball(Black, 12));
      ghost var G3 := Contents(board);
      SetPieceAt(board, WIDTH / 2, HEIGHT - 1, Ball(White, 6));
      ghost var G4 := Contents(board);
      white.SetBall(Pos(WIDTH / 2, HEIGHT - 1));
      assert white.View() == W.(slots := HomeSlots(White), ball := Some(Pos(3, 7)));
      black.SetBall(Pos(WIDTH / 2, 0));
      assert players == PL && currPlayer == CP;
      FillNulls();
      BuiltSteps(G, G1, G2, G3, G4);
    }

    /** One of the first two loops of Board.buildBoard, for the player of
        colour `c`: a new cell with the knight of each column 1..5 of the
        home row, the knight listed in Board.pieces, and the cell stored in
        the player's slot for that column. */
    method PlaceHomeRow(player: Player, c: Color)
      requires board.Length0 == HEIGHT && board.Length1 == WIDTH && player.pieces.Length == 5
      modifies board, this`pieces, player.pieces
      ensures Contents(board) == WithHomeRow(old(Contents(board)), c, WIDTH - 1)
      ensures pieces == old(pieces) + RowKnights(c, 5)
      ensures player.View() == old(player.View()).(slots := HomeSlots(c))
    {
      ghost var G := Contents(board);
      WithHomeRowNone(G, c);
      for i := 1 to WIDTH - 1
        invariant Contents(board) == WithHomeRow(G, c, i)
        invariant pieces == old(pieces) + RowKnights(c, i - 1)
        invariant player.pieces[..i - 1] == HomeSlots(c)[..i - 1]
      {
        PlaceStep(player, c, i, G, old(pieces));
      }
      assert player.pieces[..] == HomeSlots(c);
    }

    /** One pass of those loops keeps the loop's account of what has been
        placed so far. */
    method PlaceStep(player: Player, c: Color, i: int, ghost G: GridView, ghost P: seq<Piece>)
      requires board.Length0 == HEIGHT && board.Length1 == WIDTH && player.pieces.Length == 5 && 1 <= i < WIDTH - 1
      requires Sized(G) && Contents(board) == WithHomeRow(G, c, i)
      requires pieces == P + RowKnights(c, i - 1)
      requires player.pieces[..i - 1] == HomeSlots(c)[..i - 1]
      modifies board, this`pieces, player.pieces
      ensures Contents(board) == WithHomeRow(G, c, i + 1)
      ensures pieces == P + RowKnights(c, i)
      ensures player.pieces[..i] == HomeSlots(c)[..i]
    {
      PlaceKnight(player, c, i);
      WithHomeRowStep(G, c, i);
      HomeSlotsStep(c, i);
    }

    /** One pass of those loops: the cell of column `i`, the knight in
        Board.pieces and the player's slot. */
    method PlaceKnight(player: Player, c: Color, i: int)
      requires board.Length0 == HEIGHT && board.Length1 == WIDTH && player.pieces.Length == 5 && 1 <= i < WIDTH - 1
      modifies board, this`pieces, player.pieces
      ensures Contents(board) == Put(old(Contents(board)), i, HomeRow(c), [Knight(c, HomeId(c, i))])
      ensures pieces == old(pieces) + [Knight(c, HomeId(c, i))]
      ensures player.pieces[..i] == old(player.pieces[..i - 1]) + [Some(Pos(i, HomeRow(c)))]
    {
      var p := Knight(c, HomeId(c, i));
      SetPieceAt(board, i, HomeRow(c), p);
      pieces := pieces + [p];
      player.pieces[i - 1] := Some(Pos(i, HomeRow(c)));
      assert player.pieces[..i] == old(player.pieces[..i - 1]) + [Some(Pos(i, HomeRow(c)))];
    }

    /** The last loop of Board.buildBoard: a marker in every `null` cell. */
    method FillNulls()
      requires board.Length0 == HEIGHT && board.Length1 == WIDTH
      modifies board
      ensures Contents(board) == Filled(old(Contents(board)))
    {
      ghost var G := Contents(board);
      for i := 0 to HEIGHT
        invariant forall y, x | 0 <= y < HEIGHT && 0 <= x < WIDTH ::
          board[y, x] == if y < i then Filled(G)[y][x] else G[y][x]
      {
        for j := 0 to WIDTH
          invariant forall y, x | 0 <= y < HEIGHT && 0 <= x < WIDTH ::
            board[y, x] == if y < i || (y == i && x < j) then Filled(G)[y][x] else G[y][x]
        {
          if board[i, j] == [] {
            board[i, j] := SetPiece([], Marker);
          }
        }
      }
      ContentsIs(board, Filled(G));
    }

    /** Board.switchTurn. */
    method SwitchTurn()
      requires Valid()
      modifies this, players[0], players[1]
      ensures Valid() && players == old(players)
      ensures View() == SwitchTurnView(old(View()))
    {
      if players[0].isCurrent {
        currPlayer := players[1];
        currPlayer.isCurrent := true;
        players[0].isCurrent := false;
      } else {
        currPlayer := players[0];
        currPlayer.isCurrent := true;
        players[1].isCurrent := false;
      }
      SwitchTurnFlips(old(View()));
    }
  }
}
