/** A search state (State.java): a board, the number of the player it is
    attributed to, and the visit and score counters of Monte Carlo tree
    search. States live inside the nodes of the search tree, so they are
    values here: a copy (`new State(state)`, `new Board(board)`) is the same
    value, and each setter returns the updated record. */
module States {
  import opened Common
  import opened Pieces
  import opened Cells
  import opened Players
  import opened Boards

  /** The Board methods the search calls whose bodies are not part of this
      model: getAvailablePositions(cell), getDistanceToGoal(cell, player),
      checkStatus() and the constant IN_PROGRESS. Each is only ever given a
      board and answers with cells of that board or Java `int`s. */
  datatype Oracles = Oracles(
    available: (BoardView, Square) -> seq<Square>,
    distance: (BoardView, Square, int) -> int32,
    status: BoardView -> int32,
    inProgress: int32)

  /** The score `addScore` refuses to change: `Integer.MIN_VALUE` as a
      double. */
  const Dead: real := INT_MIN as real

  datatype State = State(board: BoardView, playerNum: int32, visitCount: int32, winScore: real)

  /** `new State(board)`: a copy of the board, player 0, no visits, score 0. */
  function StateOf(v: BoardView): (s: State)
    ensures s.board == v && s.playerNum == 0 && s.visitCount == 0 && s.winScore == 0.0
  {
    State(v, 0, 0, 0.0)
  }

  /** State.incrementVisit: one more visit, with Java's `int` wrap-around;
      nothing else changes. */
  function IncrementVisit(s: State): (r: State)
    ensures s.visitCount < INT_MAX ==> r.visitCount == s.visitCount + 1
    ensures s.visitCount == INT_MAX ==> r.visitCount == INT_MIN
    ensures r == s.(visitCount := r.visitCount)
  {
    s.(visitCount := Wrap32(s.visitCount + 1))
  }

  /** State.addScore: the score grows by `score` unless it is the dead
      sentinel, which stays as it is. */
  function AddScore(s: State, score: real): (r: State)
    ensures s.winScore == Dead ==> r == s
    ensures s.winScore != Dead ==> r == s.(winScore := s.winScore + score)
  {
    if s.winScore != Dead then s.(winScore := s.winScore + score) else s
  }

  /** Adding a whole sequence of scores one after the other. */
  function AddScores(s: State, scores: seq<real>): State
    decreases |scores|
  {
    if scores == [] then s else AddScores(AddScore(s, scores[0]), scores[1..])
  }

  /** The sentinel absorbs every later score: once dead, a state stays dead
      and unchanged whatever is added. */
  lemma {:induction false} DeadAbsorbs(s: State, scores: seq<real>)
    requires s.winScore == Dead
    ensures AddScores(s, scores) == s
  {
    if scores != [] {
      DeadAbsorbs(AddScore(s, scores[0]), scores[1..]);
    }
  }

  /** A live score that never meets the sentinel on the way is the plain
      sum of everything added. */
  lemma {:induction false} LiveAddsUp(s: State, scores: seq<real>)
    requires forall k | 0 <= k <= |scores| :: s.winScore + Sum(scores[..k]) != Dead
    ensures AddScores(s, scores) == s.(winScore := s.winScore + Sum(scores))
    decreases |scores|
  {
    if scores != [] {
      assert scores[..0] == [];
      var t := AddScore(s, scores[0]);
      forall k | 0 <= k <= |scores[1..]|
        ensures t.winScore + Sum(scores[1..][..k]) != Dead
      {
        assert scores[..k + 1] == [scores[0]] + scores[1..][..k];
      }
      LiveAddsUp(t, scores[1..]);
      assert scores[..|scores|] == scores;
    }
  }

  /** The sum of a sequence of scores. */
  function Sum(xs: seq<real>): real
  {
    if xs == [] then 0.0 else xs[0] + Sum(xs[1..])
  }

  /** State.getOpponent: `3 - playerNum`, in `int` arithmetic. */
  function GetOpponent(s: State): (r: int32)
    ensures s.playerNum == 1 ==> r == 2
    ensures s.playerNum == 2 ==> r == 1
    ensures INT_MIN + 4 <= s.playerNum ==> r == 3 - s.playerNum
  {
    Wrap32(3 - s.playerNum)
  }

  /** State.switchPlayer: the state is handed to the opponent; nothing else
      changes. */
  function SwitchPlayer(s: State): (r: State)
    ensures r == s.(playerNum := GetOpponent(s))
  {
    s.(playerNum := Wrap32(3 - s.playerNum))
  }

  /** A value is the 32-bit wrap of every number congruent to it. */
  lemma {:induction false} Wrap32Unique(a: int, b: int32)
    requires (a - b) % TWO_32 == 0
    ensures Wrap32(a) == b
  {
    var r := Wrap32(a);
    assert (r - b) % TWO_32 == 0;
    assert -TWO_32 < r - b < TWO_32;
  }

  /** Switching the player twice gives back the state, for every `int`,
      overflow included. */
  lemma {:induction false} SwitchPlayerTwice(s: State)
    ensures SwitchPlayer(SwitchPlayer(s)) == s
  {
    var o := Wrap32(3 - s.playerNum);
    assert (o - (3 - s.playerNum)) % TWO_32 == 0;
    Wrap32Unique(3 - o, s.playerNum);
  }

  /** What Player.makeMove does to a copy of the board `v` when the current
      player moves from `cell` to `d`: `new Board(board)` and `new
      Player(currPlayer)` copy the board and its current player,
      setCurrPlayer seats the copy, and the copy moves. */
  function TryMove(v: BoardView, cell: Square, d: Square): MoveOutcome
    requires ViewValid(v)
  {
    MakeMoveOn(v.grid, v.players[v.cur], cell, d)
  }

  /** The copied board after an accepted move. */
  function Successor(v: BoardView, cell: Square, d: Square): BoardView
    requires ViewValid(v)
  {
    var r := TryMove(v, cell, d);
    BoardView(r.grid, v.players[v.cur := r.player], v.cur)
  }

  /** A move keeps the board well formed: both players still own their
      knights and balls, the same player is current, and the pieces on the
      board are the same. */
  lemma {:induction false} SuccessorValid(v: BoardView, cell: Square, d: Square)
    requires ViewValid(v)
    ensures ViewValid(Successor(v, cell, d))
  {
    var p := v.players[v.cur];
    var q := v.players[1 - v.cur];
    assert Owns(v.grid, p.color, p.slots) && Owns(v.grid, q.color, q.slots) && p.color != q.color;
    var r := TryMove(v, cell, d);
    MakeMoveKeepsRecords(v.grid, p, cell, d);
    MakeMoveKeepsOthers(v.grid, p, cell, d, q.color, q.slots);
    MoveKeepsBallOnBoard(v.grid, p, cell, d);
    ReseatValid(v, r.grid, r.player);
  }

  /** The current player's record replaced by one of the same identity that
      still owns its knights, on a tidy grid where the opponent still owns
      its own, gives a well-formed board. */
  lemma {:induction false} ReseatValid(v: BoardView, grid: GridView, pl: PlayerView)
    requires ViewValid(v) && Tidy(grid)
    requires pl.id == v.players[v.cur].id && pl.color == v.players[v.cur].color && pl.isCurrent
    requires Owns(grid, pl.color, pl.slots)
    requires Owns(grid, v.players[1 - v.cur].color, v.players[1 - v.cur].slots)
    requires pl.ball.Some? && InBounds(pl.ball.value.x, pl.ball.value.y)
    ensures ViewValid(BoardView(grid, v.players[v.cur := pl], v.cur))
  {
    var w := BoardView(grid, v.players[v.cur := pl], v.cur);
    if v.cur == 0 {
      assert w.players == [pl, v.players[1]];
    } else {
      assert w.players == [v.players[0], pl];
    }
  }

  /** A move keeps the pieces on the board, the player to move, and the
      opponent's record. */
  lemma {:induction false} SuccessorKeeps(v: BoardView, cell: Square, d: Square)
    requires ViewValid(v)
    ensures Bag(Successor(v, cell, d).grid) == Bag(v.grid)
    ensures Successor(v, cell, d).cur == v.cur
    ensures Successor(v, cell, d).players[1 - v.cur] == v.players[1 - v.cur]
  {
  }

  /** After Player.makeMove the player's ball reference is still a square of
      the board: either unchanged or the destination of a pass. */
  lemma {:induction false} MoveKeepsBallOnBoard(G: GridView, p: PlayerView, s: Square, d: Square)
    requires Tidy(G) && |p.slots| == 5
    requires p.ball.Some? && InBounds(p.ball.value.x, p.ball.value.y)
    ensures var b := MakeMoveOn(G, p, s, d).player.ball;
      b.Some? && InBounds(b.value.x, b.value.y)
  {
  }

  /** The child state `getAllPossibleStates` builds for an accepted move:
      `new State(newBoard)` handed to `3 - playerNum`. */
  function ChildState(s: State, cell: Square, d: Square): (c: State)
    requires ViewValid(s.board)
  {
    StateOf(Successor(s.board, cell, d)).(playerNum := Wrap32(3 - s.playerNum))
  }

  /** The states State.getAllPossibleStates lists for the destinations
      `ds`, in their order: one per destination whose move is accepted. */
  function PossibleStates(s: State, cell: Square, ds: seq<Square>): seq<State>
    requires ViewValid(s.board)
  {
    if ds == [] then []
    else
      var last := ds[|ds| - 1];
      PossibleStates(s, cell, ds[..|ds| - 1]) + (if TryMove(s.board, cell, last).ok then [ChildState(s, cell, last)] else [])
  }

  /** At most one state per destination. */
  lemma {:induction false} PossibleStatesBound(s: State, cell: Square, ds: seq<Square>)
    requires ViewValid(s.board)
    ensures |PossibleStates(s, cell, ds)| <= |ds|
  {
    if ds != [] {
      PossibleStatesBound(s, cell, ds[..|ds| - 1]);
    }
  }

  /** Every listed state comes from an accepted move to one of the
      destinations, is handed to the opponent, starts with no visits and no
      score, and holds a well-formed board. */
  lemma {:induction false} PossibleStatesSound(s: State, cell: Square, ds: seq<Square>, t: State)
    requires ViewValid(s.board) && t in PossibleStates(s, cell, ds)
    ensures exists d | d in ds :: TryMove(s.board, cell, d).ok && t.board == Successor(s.board, cell, d)
    ensures t.playerNum == GetOpponent(s) && t.visitCount == 0 && t.winScore == 0.0
    ensures ViewValid(t.board)
  {
    var init := ds[..|ds| - 1];
    var last := ds[|ds| - 1];
    if t in PossibleStates(s, cell, init) {
      PossibleStatesSound(s, cell, init, t);
      var d :| d in init && TryMove(s.board, cell, d).ok && t.board == Successor(s.board, cell, d);
      assert d in ds;
    } else {
      assert t == ChildState(s, cell, last);
      SuccessorValid(s.board, cell, last);
    }
  }

  /** Every accepted move to one of the destinations is listed. */
  lemma {:induction false} PossibleStatesComplete(s: State, cell: Square, ds: seq<Square>, d: Square)
    requires ViewValid(s.board) && d in ds && TryMove(s.board, cell, d).ok
    ensures ChildState(s, cell, d) in PossibleStates(s, cell, ds)
  {
    var init := ds[..|ds| - 1];
    if d != ds[|ds| - 1] {
      assert d in init;
      PossibleStatesComplete(s, cell, init, d);
    }
  }

  /** One more destination: the list grows by the state of that move when
      the move is accepted. */
  lemma {:induction false} PossibleStatesStep(s: State, cell: Square, ds: seq<Square>, i: int)
    requires ViewValid(s.board) && 0 <= i < |ds|
    ensures PossibleStates(s, cell, ds[..i + 1]) ==
      PossibleStates(s, cell, ds[..i]) + (if TryMove(s.board, cell, ds[i]).ok then [ChildState(s, cell, ds[i])] else [])
  {
    assert ds[..i + 1][..i] == ds[..i];
  }

  /** State.getAllPossibleStates(cell): for each position
      getAvailablePositions offers, a fresh copy of the board and of its
      current player tries the move, and each accepted move yields a state. */
  method GetAllPossibleStates(s: State, o: Oracles, cell: Square) returns (r: seq<State>)
    requires ViewValid(s.board)
    ensures r == PossibleStates(s, cell, o.available(s.board, cell))
  {
    var positions := o.available(s.board, cell);
    r := [];
    for i := 0 to |positions|
      invariant r == PossibleStates(s, cell, positions[..i])
    {
      PossibleStatesStep(s, cell, positions, i);
      if TryMove(s.board, cell, positions[i]).ok {
        r := r + [ChildState(s, cell, positions[i])];
      }
    }
    assert positions[..|positions|] == positions;
  }
}
