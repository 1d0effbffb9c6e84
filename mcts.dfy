/** MCTSPlayer: the Monte Carlo tree search that picks the computer's move.
    The wall clock becomes an iteration count, and each random draw is
    passed in. */
module Mcts {
  import opened Common
  import opened Cells
  import opened Players
  import opened Boards
  import opened States
  import opened Evaluation
  import opened Trees
  import opened Uct

  /** MCTSPlayer.WIN_SCORE. */
  const WIN_SCORE: int := 10

  /** A ball carried at `cell` can be passed to a cell at distance 0 for
      the player to move. */
  predicate WinsFrom(w: BoardView, o: Oracles, cell: Square)
    requires ViewValid(w)
  {
    exists q | q in o.available(w, cell) :: o.distance(w, q, Me(w)) == 0
  }

  /** canOpponentWinNextMove's question: once the turn passes to the other
      player, one of that player's knights carries a ball that can reach
      the goal in one pass. */
  predicate OpponentCanWin(v: BoardView, o: Oracles)
    requires ViewValid(v)
  {
    SwitchTurnFlips(v);
    var w := SwitchTurnView(v);
    exists k | 0 <= k < 5 :: Carrier(w, w.cur, k) && WinsFrom(w, o, SlotCell(w, w.cur, k))
  }

  /** The states getAllPossibleStates yields for slot `k` of the player to
      move. */
  function SlotMoves(s: State, o: Oracles, k: int): seq<State>
    requires ViewValid(s.board) && 0 <= k < 5
  {
    var cell := SlotCell(s.board, s.board.cur, k);
    PossibleStates(s, cell, o.available(s.board, cell))
  }

  /** The states expand attaches below a node holding `s`, slot by slot
      over the first `n` slots of the player to move. */
  function Expansion(s: State, o: Oracles, n: nat): seq<State>
    requires ViewValid(s.board) && n <= 5
  {
    if n == 0 then [] else Expansion(s, o, n - 1) + SlotMoves(s, o, n - 1)
  }

  /** Every state expand attaches is the board after an accepted move of
      one of the mover's knights or its ball, handed to the opponent with
      fresh counters. */
  lemma {:induction false} ExpansionSound(s: State, o: Oracles, n: nat, t: State)
    requires ViewValid(s.board) && n <= 5 && t in Expansion(s, o, n)
    ensures exists k | 0 <= k < n ::
      var cell := SlotCell(s.board, s.board.cur, k);
      exists d | d in o.available(s.board, cell) :: TryMove(s.board, cell, d).ok && t.board == Successor(s.board, cell, d)
    ensures t.playerNum == GetOpponent(s) && t.visitCount == 0 && t.winScore == 0.0
    ensures ViewValid(t.board)
  {
    if n > 0 {
      if t in Expansion(s, o, n - 1) {
        ExpansionSound(s, o, n - 1, t);
      } else {
        var cell := SlotCell(s.board, s.board.cur, n - 1);
        PossibleStatesSound(s, cell, o.available(s.board, cell), t);
      }
    }
  }

  /** And every accepted move is among them. */
  lemma {:induction false} ExpansionComplete(s: State, o: Oracles, n: nat, k: int, d: Square)
    requires ViewValid(s.board) && 0 <= k < n <= 5
    requires var cell := SlotCell(s.board, s.board.cur, k);
      d in o.available(s.board, cell) && TryMove(s.board, cell, d).ok
    ensures ChildState(s, SlotCell(s.board, s.board.cur, k), d) in Expansion(s, o, n)
  {
    var cell := SlotCell(s.board, s.board.cur, k);
    var c := ChildState(s, cell, d);
    assert Expansion(s, o, n) == Expansion(s, o, n - 1) + SlotMoves(s, o, n - 1);
    if k < n - 1 {
      ExpansionComplete(s, o, n - 1, k, d);
      assert c in Expansion(s, o, n - 1);
    } else {
      PossibleStatesComplete(s, cell, o.available(s.board, cell), d);
      assert c in SlotMoves(s, o, n - 1);
    }
  }

  /** `n` consecutive indices from `a`. */
  function Range(a: int, n: nat): (r: seq<int>)
    ensures |r| == n && forall m | 0 <= m < n :: r[m] == a + m
  {
    seq(n, m => a + m)
  }

  /** The node expand creates for state `t` below a node holding `s`:
      `new Node(t)`, its parent set, its player set to `s`'s opponent. */
  function Tagged(s: State, t: State): State
  {
    t.(playerNum := GetOpponent(s))
  }

  /** The arena after expand attached the states `ts` below node `i`, one
      new node each, in order. */
  function Attached(ns: seq<Node>, i: int, ts: seq<State>): (r: seq<Node>)
    requires 0 <= i < |ns|
    ensures |r| == |ns| + |ts| && r[i].state == ns[i].state
  {
    if ts == [] then ns
    else
      var prev := Attached(ns, i, ts[..|ts| - 1]);
      prev[i := prev[i].(children := prev[i].children + [|prev|])] + [Node(Tagged(ns[i].state, ts[|ts| - 1]), Some(i), [])]
  }

  /** What attaching does: node `i` gains the new indices as its last
      children, each new node holds its tagged state with parent `i` and no
      children, and every other node stays as it was. */
  lemma {:induction false} AttachedShape(ns: seq<Node>, i: int, ts: seq<State>)
    requires 0 <= i < |ns|
    ensures var r := Attached(ns, i, ts);
      && r[..|ns|] == ns[i := ns[i].(children := ns[i].children + Range(|ns|, |ts|))]
      && forall m | 0 <= m < |ts| :: r[|ns| + m] == Node(Tagged(ns[i].state, ts[m]), Some(i), [])
  {
    if ts == [] {
      assert ns[i].children + Range(|ns|, 0) == ns[i].children;
      assert ns[i := ns[i]] == ns;
    } else {
      var ts' := ts[..|ts| - 1];
      AttachedShape(ns, i, ts');
      var prev := Attached(ns, i, ts');
      var r := Attached(ns, i, ts);
      assert Range(|ns|, |ts'|) + [|prev|] == Range(|ns|, |ts|);
      var X := prev[i].(children := prev[i].children + [|prev|]);
      assert prev[i] == prev[..|ns|][i];
      assert X == ns[i].(children := ns[i].children + Range(|ns|, |ts|)) by {
        assert ns[i].children + Range(|ns|, |ts'|) + [|prev|] == ns[i].children + (Range(|ns|, |ts'|) + [|prev|]);
      }
      assert r[..|ns|] == prev[i := X][..|ns|];
      assert prev[i := X][..|ns|] == prev[..|ns|][i := X];
      forall m | 0 <= m < |ts|
        ensures r[|ns| + m] == Node(Tagged(ns[i].state, ts[m]), Some(i), [])
      {
        if m < |ts'| {
          assert r[|ns| + m] == prev[|ns| + m] && ts'[m] == ts[m];
        }
      }
    }
  }

  /** Attaching one more state extends the arena by one step. */
  lemma {:induction false} AttachedSnoc(ns: seq<Node>, i: int, ts: seq<State>, t: State)
    requires 0 <= i < |ns|
    ensures var prev := Attached(ns, i, ts);
      Attached(ns, i, ts + [t]) == prev[i := prev[i].(children := prev[i].children + [|prev|])] + [Node(Tagged(ns[i].state, t), Some(i), [])]
  {
    assert (ts + [t])[..|ts|] == ts;
  }

  /** Attaching `a` and then `b` is attaching `a + b`. */
  lemma {:induction false} AttachedAppend(ns: seq<Node>, i: int, a: seq<State>, b: seq<State>)
    requires 0 <= i < |ns|
    ensures Attached(Attached(ns, i, a), i, b) == Attached(ns, i, a + b)
  {
    if b == [] {
      assert a + b == a;
    } else {
      var b' := b[..|b| - 1];
      AttachedAppend(ns, i, a, b');
      assert (a + b)[..|a + b| - 1] == a + b';
      assert (a + b)[|a + b| - 1] == b[|b| - 1];
    }
  }

  /** The parent chain from node `n` up to a node without parent: the
      nodes backPropagation visits, in its order. */
  function Ancestors(ns: seq<Node>, n: int): (r: seq<nat>)
    requires Arena(ns) && 0 <= n < |ns|
    ensures |r| > 0 && r[0] == n
    ensures forall a, b | 0 <= a < b < |r| :: r[b] < r[a]
    ensures forall a | 0 <= a < |r| :: r[a] < |ns|
    decreases n
  {
    assert NodeOk(ns, n);
    match ns[n].parent
    case None => [n]
    case Some(p) => [n] + Ancestors(ns, p)
  }

  /** What backPropagation does to one node's state: one more visit, then
      +WIN_SCORE when the node belongs to the winner and -WIN_SCORE
      otherwise. */
  function Credit(s: State, winner: int32): State
  {
    AddScore(IncrementVisit(s), if s.playerNum == winner then WIN_SCORE as real else -WIN_SCORE as real)
  }

  /** Crediting counts exactly one visit, keeps the board and the player,
      leaves the `Integer.MIN_VALUE` sentinel in place and otherwise moves
      the score by exactly WIN_SCORE towards the winner. */
  lemma {:induction false} CreditEffect(s: State, winner: int32)
    ensures var r := Credit(s, winner);
      && r.board == s.board && r.playerNum == s.playerNum
      && (s.visitCount < INT_MAX ==> r.visitCount == s.visitCount + 1)
      && (s.winScore == Dead ==> r.winScore == Dead)
      && (s.winScore != Dead && s.playerNum == winner ==> r.winScore == s.winScore + 10.0)
      && (s.winScore != Dead && s.playerNum != winner ==> r.winScore == s.winScore - 10.0)
  {
  }

  /** The arena after backPropagation from `n`: every node on the parent
      chain credited once, every other node untouched. */
  ghost predicate Propagated(old_: seq<Node>, new_: seq<Node>, n: int, winner: int32)
    requires Arena(old_) && 0 <= n < |old_|
  {
    CreditedOn(old_, new_, Ancestors(old_, n), winner)
  }

  /** The nodes listed in `done` credited once, every other node untouched. */
  ghost predicate CreditedOn(old_: seq<Node>, new_: seq<Node>, done: seq<nat>, winner: int32)
  {
    && |new_| == |old_|
    && forall j | 0 <= j < |old_| ::
         new_[j] == if j in done then old_[j].(state := Credit(old_[j].state, winner)) else old_[j]
  }

  /** Crediting one more node `m`, not yet credited. */
  lemma {:induction false} CreditStep(old_: seq<Node>, new_: seq<Node>, done: seq<nat>, m: nat, winner: int32)
    requires CreditedOn(old_, new_, done, winner) && m < |old_| && m !in done
    ensures CreditedOn(old_, new_[m := new_[m].(state := Credit(new_[m].state, winner))], done + [m], winner)
  {
  }

  /** The chain from `m` is `m` followed by the chain from its parent. */
  lemma {:induction false} AncestorsUnfold(ns: seq<Node>, m: nat)
    requires Arena(ns) && m < |ns|
    ensures ns[m].parent.None? ==> Ancestors(ns, m) == [m]
    ensures ns[m].parent.Some? ==>
      ns[m].parent.value < m && Ancestors(ns, m) == [m] + Ancestors(ns, ns[m].parent.value)
  {
    ParentBelow(ns, m);
  }

  /** One step up the parent chain: the node reached has not been
      credited yet (every credited node lies below it), and the chain goes
      on from its parent, which lies below every node credited so far. */
  lemma {:induction false} ChainStep(ns: seq<Node>, chain: seq<nat>, done: seq<nat>, m: nat)
    requires Arena(ns) && m < |ns| && chain == done + Ancestors(ns, m)
    requires forall a | 0 <= a < |done| :: m < done[a]
    ensures m !in done
    ensures ns[m].parent.None? ==> chain == done + [m]
    ensures ns[m].parent.Some? ==>
      && ns[m].parent.value < m
      && chain == (done + [m]) + Ancestors(ns, ns[m].parent.value)
      && forall a | 0 <= a < |done + [m]| :: ns[m].parent.value < (done + [m])[a]
  {
    AncestorsUnfold(ns, m);
    match ns[m].parent
    case None =>
    case Some(p) =>
      var up := Ancestors(ns, p);
      assert done + ([m] + up) == (done + [m]) + up;
      AllAbove(done, m, p);
  }

  /** Every index credited lies above the next one up the chain. */
  lemma {:induction false} AllAbove(done: seq<nat>, m: nat, p: nat)
    requires p < m && forall a | 0 <= a < |done| :: m < done[a]
    ensures forall a | 0 <= a < |done + [m]| :: p < (done + [m])[a]
  {
    forall a | 0 <= a < |done + [m]|
      ensures p < (done + [m])[a]
    {
      if a < |done| {
        assert (done + [m])[a] == done[a];
      }
    }
  }

  /** The arena after the parent of node `n`, if it has one, had its win
      score set to the `Integer.MIN_VALUE` sentinel. */
  function MarkParentDead(ns: seq<Node>, n: int): (r: seq<Node>)
    requires Arena(ns) && 0 <= n < |ns|
    ensures |r| == |ns|
  {
    assert NodeOk(ns, n);
    match ns[n].parent
    case None => ns
    case Some(p) => ns[p := ns[p].(state := ns[p].state.(winScore := Dead))]
  }

  /** simulateGame as written: the node it reads the parent of is a fresh
      `new Node(state)`, which has no parent, so when the opponent has
      already won the call `getParent().getState()` fails; `None` stands for
      that null dereference. Otherwise the result is the status the
      playout ends in (`playout`, when the game is still in progress). */
  method SimulateGameAsWritten(ns: seq<Node>, n: nat, o: Oracles, opponent: int32, playout: int32) returns (r: Option<int32>)
    requires n < |ns|
    ensures o.status(ns[n].state.board) == opponent ==> r.None?
    ensures o.status(ns[n].state.board) != opponent ==>
      r == Some(if o.status(ns[n].state.board) == o.inProgress then playout else o.status(ns[n].state.board))
  {
    var simulationNode := Node(ns[n].state, None, []);
    var status := o.status(simulationNode.state.board);
    if status == opponent {
      if simulationNode.parent.None? {
        return None;
      }
      return Some(status);
    }
    if status == o.inProgress {
      status := playout;
    }
    return Some(status);
  }

  /** PossibleStates reads only the board and the player of the state it
      starts from, not its counters. */
  lemma {:induction false} PossibleStatesSame(s: State, s': State, cell: Square, ds: seq<Square>)
    requires ViewValid(s.board) && s'.board == s.board && s'.playerNum == s.playerNum
    ensures PossibleStates(s, cell, ds) == PossibleStates(s', cell, ds)
  {
    if ds != [] {
      var last := ds[|ds| - 1];
      PossibleStatesSame(s, s', cell, ds[..|ds| - 1]);
      assert ChildState(s, cell, last) == ChildState(s', cell, last);
    }
  }

  /** Neither does Expansion. */
  lemma {:induction false} ExpansionSame(s: State, s': State, o: Oracles, n: nat)
    requires ViewValid(s.board) && s'.board == s.board && s'.playerNum == s.playerNum && n <= 5
    ensures Expansion(s, o, n) == Expansion(s', o, n)
  {
    if n > 0 {
      ExpansionSame(s, s', o, n - 1);
      var cell := SlotCell(s.board, s.board.cur, n - 1);
      PossibleStatesSame(s, s', cell, o.available(s.board, cell));
    }
  }

  /** The boards of a list of states, in order. */
  function BoardsOf(ts: seq<State>): (bs: seq<BoardView>)
    ensures |bs| == |ts| && forall m | 0 <= m < |ts| :: bs[m] == ts[m].board
  {
    seq(|ts|, m requires 0 <= m < |ts| => ts[m].board)
  }

  /** The root state findNextMove sets up: the board it was given, handed
      to `opponent = 3 - playerNum`, with zero counters. */
  function RootState(v: BoardView): (s: State)
    requires ViewValid(v)
    ensures s.board == v && s.playerNum == 3 - v.players[v.cur].id
    ensures s.visitCount == 0 && s.winScore == 0.0
  {
    State(v, 3 - v.players[v.cur].id, 0, 0.0)
  }

  /** The parts of the arena attaching changes: node `i` gains the new
      indices as children, the new nodes hold the boards of `ts`, and every
      older node keeps its state and, apart from `i`, its children. */
  lemma {:induction false} AttachedFacts(ns: seq<Node>, i: int, ts: seq<State>)
    requires 0 <= i < |ns|
    ensures var r := Attached(ns, i, ts);
      && (forall c | 0 <= c < |ns| :: r[c].state == ns[c].state)
      && (forall c | 0 <= c < |ns| && c != i :: r[c].children == ns[c].children)
      && r[i] == ns[i].(children := ns[i].children + Range(|ns|, |ts|))
      && (forall c | |ns| <= c < |r| :: r[c].state.board == ts[c - |ns|].board)
  {
    var r := Attached(ns, i, ts);
    AttachedShape(ns, i, ts);
    forall c | 0 <= c < |ns|
      ensures r[c] == r[..|ns|][c]
    {
    }
    forall c | |ns| <= c < |r|
      ensures r[c].state.board == ts[c - |ns|].board
    {
      assert r[|ns| + (c - |ns|)] == Node(Tagged(ns[i].state, ts[c - |ns|]), Some(i), []);
    }
  }

  /** What the search keeps true of the root it started from (`s0`): the
      root still holds the same board and player, and each child of the
      root holds one of the boards `bs`. */
  ghost predicate RootKept(ns: seq<Node>, root: int, s0: State, bs: seq<BoardView>)
  {
    && 0 <= root < |ns|
    && ns[root].state.board == s0.board && ns[root].state.playerNum == s0.playerNum
    && forall k | 0 <= k < |ns[root].children| ::
         0 <= ns[root].children[k] < |ns| && ns[ns[root].children[k]].state.board in bs
  }

  /** Attaching states below any node keeps the root's record as long as
      states attached below the root hold boards of `bs`; the root's
      children only grow, by one per state when it is the root that grows. */
  lemma {:induction false} AttachKeepsRoot(ns: seq<Node>, i: nat, ts: seq<State>, root: nat, s0: State, bs: seq<BoardView>)
    requires i < |ns| && RootKept(ns, root, s0, bs)
    requires i == root ==> forall m | 0 <= m < |ts| :: ts[m].board in bs
    ensures var r := Attached(ns, i, ts);
      && RootKept(r, root, s0, bs)
      && |r[root].children| >= |ns[root].children|
      && (i == root ==> |r[root].children| == |ns[root].children| + |ts|)
  {
    var r := Attached(ns, i, ts);
    AttachedFacts(ns, i, ts);
    if i == root {
      forall k | 0 <= k < |r[root].children|
        ensures 0 <= r[root].children[k] < |r| && r[r[root].children[k]].state.board in bs
      {
        if k >= |ns[root].children| {
          var m := k - |ns[root].children|;
          assert r[root].children[k] == |ns| + m;
        }
      }
    }
  }

  /** Expanding any node keeps the root's record when `bs` are the boards
      one move away from the root; expanding the root itself adds one child
      per successor. */
  lemma {:induction false} ExpandKeepsRoot(ns: seq<Node>, i: nat, root: nat, s0: State, o: Oracles, bs: seq<BoardView>)
    requires Arena(ns) && i < |ns| && ViewValid(s0.board) && RootKept(ns, root, s0, bs)
    requires bs == BoardsOf(Expansion(s0, o, 5))
    ensures ViewValid(ns[i].state.board)
    ensures var r := Attached(ns, i, Expansion(ns[i].state, o, 5));
      && RootKept(r, root, s0, bs)
      && |r[root].children| >= |ns[root].children|
      && (i == root ==> |r[root].children| == |ns[root].children| + |bs|)
  {
    assert NodeOk(ns, i);
    var E := Expansion(ns[i].state, o, 5);
    if i == root {
      ExpansionSame(s0, ns[root].state, o, 5);
      forall m | 0 <= m < |E|
        ensures E[m].board in bs
      {
        assert bs[m] == E[m].board;
      }
    }
    AttachKeepsRoot(ns, i, E, root, s0, bs);
  }

  /** Crediting nodes keeps the root's record and its children. */
  lemma {:induction false} CreditKeepsRoot(ns: seq<Node>, ns': seq<Node>, done: seq<nat>, winner: int32, root: nat, s0: State, bs: seq<BoardView>)
    requires RootKept(ns, root, s0, bs) && CreditedOn(ns, ns', done, winner)
    ensures RootKept(ns', root, s0, bs) && ns'[root].children == ns[root].children
  {
    forall c | 0 <= c < |ns|
      ensures ns'[c].state.board == ns[c].state.board && ns'[c].state.playerNum == ns[c].state.playerNum
      ensures ns'[c].children == ns[c].children
    {
      CreditEffect(ns[c].state, winner);
    }
  }

  /** Marking a parent dead keeps the root's record and its children. */
  lemma {:induction false} MarkKeepsRoot(ns: seq<Node>, n: nat, root: nat, s0: State, bs: seq<BoardView>)
    requires Arena(ns) && n < |ns| && RootKept(ns, root, s0, bs)
    ensures RootKept(MarkParentDead(ns, n), root, s0, bs) && MarkParentDead(ns, n)[root].children == ns[root].children
  {
  }

  /** A node without children is where the descent from it stops. */
  lemma {:induction false} DescentAtLeaf(ns: seq<Node>, i: nat, explore: (int, int) -> real)
    requires Arena(ns) && i < |ns| && ns[i].children == []
    ensures Descent(ns, i, explore) == i
  {
    assert NodeOk(ns, i);
  }

  /** The board of node `i`'s child with the most visits, `None` when it
      has no children. */
  function MaxChildBoard(ns: seq<Node>, i: int): Option<BoardView>
    requires Arena(ns) && 0 <= i < |ns|
  {
    assert NodeOk(ns, i);
    match ChildWithMaxScore(ns, i)
    case None => None
    case Some(c) => Some(ns[c].state.board)
  }

  /** The guard's test on node `c`: after the move that led to it, the
      opponent has no immediate win. */
  predicate SafeAt(ns: seq<Node>, c: int, o: Oracles)
    requires Arena(ns) && 0 <= c < |ns|
  {
    assert NodeOk(ns, c);
    !OpponentCanWin(ns[c].state.board, o)
  }

  /** Some successor in `E` leaves the opponent without an immediate win. */
  predicate SomeSafe(E: seq<State>, o: Oracles)
  {
    exists t | t in E :: ViewValid(t.board) && !OpponentCanWin(t.board, o)
  }

  /** Attaching `ts` to a lone root puts successor `k` at index `1 + k`. */
  lemma {:induction false} FreshLayout(s0: State, ts: seq<State>)
    ensures var r := Attached([Node(s0, None, [])], 0, ts);
      && |r| == 1 + |ts|
      && r[0] == Node(s0, None, [] + Range(1, |ts|))
      && forall c | 1 <= c < |r| :: r[c].state.board == ts[c - 1].board
  {
    AttachedFacts([Node(s0, None, [])], 0, ts);
  }

  /** The guard's filter on a freshly expanded root keeps some child
      exactly when some successor leaves the opponent without an immediate
      win. */
  lemma {:induction false} SafeChildrenMeaning(ns: seq<Node>, E: seq<State>, avail: seq<nat>, o: Oracles)
    requires Arena(ns) && |ns| == 1 + |E| && ns[0].children == Range(1, |E|)
    requires forall c | 1 <= c < |ns| :: ns[c].state.board == E[c - 1].board
    requires forall a | 0 <= a < |avail| :: avail[a] in ns[0].children && avail[a] < |ns| && SafeAt(ns, avail[a], o)
    requires forall k | 0 <= k < |ns[0].children| ::
      0 <= ns[0].children[k] < |ns| && (SafeAt(ns, ns[0].children[k], o) ==> ns[0].children[k] in avail)
    ensures |avail| > 0 <==> SomeSafe(E, o)
  {
    if |avail| > 0 {
      KeptIsSafe(ns, E, avail[0], o);
    }
    if SomeSafe(E, o) {
      var k := SafeSuccessor(ns, E, o);
      assert ns[0].children[k] == 1 + k;
    }
  }

  /** A successor that leaves the opponent without an immediate win sits
      at a child of the root that the filter accepts. */
  lemma {:induction false} SafeSuccessor(ns: seq<Node>, E: seq<State>, o: Oracles) returns (k: nat)
    requires Arena(ns) && |ns| == 1 + |E| && ns[0].children == Range(1, |E|)
    requires forall c | 1 <= c < |ns| :: ns[c].state.board == E[c - 1].board
    requires SomeSafe(E, o)
    ensures k < |E| && ns[0].children[k] == 1 + k && SafeAt(ns, 1 + k, o)
  {
    var t :| t in E && ViewValid(t.board) && !OpponentCanWin(t.board, o);
    k :| 0 <= k < |E| && E[k] == t;
    assert ns[1 + k].state.board == t.board;
  }

  /** A kept child is a successor that leaves the opponent without an
      immediate win. */
  lemma {:induction false} KeptIsSafe(ns: seq<Node>, E: seq<State>, c: nat, o: Oracles)
    requires Arena(ns) && |ns| == 1 + |E| && ns[0].children == Range(1, |E|)
    requires forall c | 1 <= c < |ns| :: ns[c].state.board == E[c - 1].board
    requires c in ns[0].children && SafeAt(ns, c, o)
    ensures SomeSafe(E, o)
  {
    assert NodeOk(ns, c);
    assert E[c - 1] in E;
  }

  /** Every child the filter keeps holds the board of one of the
      successors. */
  lemma {:induction false} KeptAreSuccessors(ns: seq<Node>, E: seq<State>, avail: seq<nat>)
    requires |ns| == 1 + |E| && ns[0].children == Range(1, |E|)
    requires forall c | 1 <= c < |ns| :: ns[c].state.board == E[c - 1].board
    requires forall a | 0 <= a < |avail| :: avail[a] in ns[0].children
    ensures forall a | 0 <= a < |avail| :: 0 < avail[a] < |ns| && ns[avail[a]].state.board in BoardsOf(E)
  {
    var bs := BoardsOf(E);
    forall a | 0 <= a < |avail|
      ensures 0 < avail[a] < |ns| && ns[avail[a]].state.board in bs
    {
      var k :| 0 <= k < |ns[0].children| && ns[0].children[k] == avail[a];
      assert bs[k] == E[k].board;
    }
  }

  /** MCTSPlayer, with its `level` and the `opponent` findNextMove records. */
  class MCTSPlayer {
    var level: int32
    var opponent: int32

    /** new MCTSPlayer(): level 3. */
    constructor ()
      ensures level == 3 && opponent == 0
    {
      level := 3;
      opponent := 0;
    }

    /** getMillisForCurrentLevel, in Java `int` arithmetic. */
    function MillisForCurrentLevel(): int32
      reads this
    {
      Wrap32(2 * (level - 1) + 1)
    }

    /** The search deadline `start + 60L * getMillisForCurrentLevel()`. */
    function Deadline(start: int): int
      reads this
    {
      start + 60 * MillisForCurrentLevel()
    }

    /** canOpponentWinNextMove(board): hands the turn over, looks for a ball
        of the player now to move that can reach the goal, and hands the turn
        back on both return paths. */
    method CanOpponentWinNextMove(board: Board, o: Oracles) returns (r: bool)
      requires board.Valid()
      modifies board, board.players[0], board.players[1]
      ensures board.Valid() && board.View() == old(board.View())
      ensures r == OpponentCanWin(old(board.View()), o)
    {
      ghost var v := board.View();
      SwitchTurnTwice(v);
      board.SwitchTurn();
      var otherPlayer := board.currPlayer.id;
      var found := CanReachGoalFromAny(board.View(), o, otherPlayer);
      if found {
        board.SwitchTurn();
        return true;
      }
      board.SwitchTurn();
      return false;
    }

    /** The outer loop of canOpponentWinNextMove, over the pieces of the
        player to move, on the board after the turn was handed over. */
    static method CanReachGoalFromAny(w: BoardView, o: Oracles, otherPlayer: int) returns (found: bool)
      requires ViewValid(w) && otherPlayer == Me(w)
      ensures found <==> exists k | 0 <= k < 5 :: Carrier(w, w.cur, k) && WinsFrom(w, o, SlotCell(w, w.cur, k))
    {
      var cells := w.players[otherPlayer - 1].slots;
      for k := 0 to 5
        invariant !exists j | 0 <= j < k :: Carrier(w, w.cur, j) && WinsFrom(w, o, SlotCell(w, w.cur, j))
      {
        var cell := cells[k].value;
        assert cell == SlotCell(w, w.cur, k);
        if |w.grid[cell.y][cell.x]| == 2 {
          found := CanReachGoal(w, o, cell, otherPlayer);
          if found {
            return;
          }
        }
      }
      return false;
    }

    /** The inner loop of canOpponentWinNextMove over the destinations of
        the ball at `cell`. */
    static method CanReachGoal(w: BoardView, o: Oracles, cell: Square, otherPlayer: int) returns (found: bool)
      requires ViewValid(w) && otherPlayer == Me(w)
      ensures found == WinsFrom(w, o, cell)
    {
      var availablePositions := o.available(w, cell);
      for j := 0 to |availablePositions|
        invariant forall q | q in availablePositions[..j] :: o.distance(w, q, Me(w)) != 0
      {
        if o.distance(w, availablePositions[j], otherPlayer) == 0 {
          return true;
        }
        assert availablePositions[..j + 1] == availablePositions[..j] + [availablePositions[j]];
      }
      assert availablePositions[..|availablePositions|] == availablePositions;
      return false;
    }

    /** selectPromisingNode(root): descend by UCT to a node without
        children. */
    method SelectPromisingNode(tree: Tree, explore: (int, int) -> real) returns (node: nat)
      requires tree.Valid()
      ensures node == Descent(tree.nodes, tree.root, explore)
    {
      node := tree.root;
      while tree.nodes[node].children != []
        invariant node < |tree.nodes| && Descent(tree.nodes, node, explore) == Descent(tree.nodes, tree.root, explore)
        decreases |tree.nodes| - node
      {
        assert NodeOk(tree.nodes, node);
        node := FindBestNodeWithUct(tree.nodes, node, explore).value;
      }
    }

    /** The body of expand's inner loop: `new Node(state)`, `setParent`,
        `setPlayerNum(node.getState().getOpponent())` and `add`. */
    static method AttachChild(tree: Tree, i: nat, t: State) returns (c: nat)
      requires tree.Valid() && i < |tree.nodes| && ViewValid(t.board)
      modifies tree`nodes
      ensures tree.Valid() && c == old(|tree.nodes|)
      ensures tree.nodes == old(tree.nodes)[i := old(tree.nodes[i]).(children := old(tree.nodes[i].children) + [c])]
        + [Node(Tagged(old(tree.nodes[i].state), t), Some(i), [])]
    {
      c := tree.AddNode(t);
      tree.SetParent(c, i);
      tree.SetState(c, tree.nodes[c].state.(playerNum := GetOpponent(tree.nodes[i].state)));
      tree.AddChild(i, c);
    }

    /** expand(node): one child per state getAllPossibleStates yields for
        each of the mover's five slots, in order. */
    static method Expand(tree: Tree, i: nat, o: Oracles)
      requires tree.Valid() && i < |tree.nodes| && ViewValid(tree.nodes[i].state.board)
      modifies tree`nodes
      ensures tree.Valid()
      ensures tree.nodes == Attached(old(tree.nodes), i, Expansion(old(tree.nodes[i].state), o, 5))
    {
      ghost var N := tree.nodes;
      var s := tree.nodes[i].state;
      var cells := s.board.players[s.board.cur].slots;
      for k := 0 to 5
        invariant tree.Valid() && tree.nodes == Attached(N, i, Expansion(s, o, k))
      {
        var cell := cells[k].value;
        assert cell == SlotCell(s.board, s.board.cur, k);
        var possibleStates := GetAllPossibleStates(s, o, cell);
        forall t | t in possibleStates
          ensures ViewValid(t.board)
        {
          PossibleStatesSound(s, cell, o.available(s.board, cell), t);
        }
        AttachedAppend(N, i, Expansion(s, o, k), possibleStates);
        AttachStates(tree, i, possibleStates);
      }
    }

    /** expand's inner loop: one child per state, in order. */
    static method AttachStates(tree: Tree, i: nat, possibleStates: seq<State>)
      requires tree.Valid() && i < |tree.nodes|
      requires forall t | t in possibleStates :: ViewValid(t.board)
      modifies tree`nodes
      ensures tree.Valid()
      ensures tree.nodes == Attached(old(tree.nodes), i, possibleStates)
    {
      ghost var N := tree.nodes;
      for j := 0 to |possibleStates|
        invariant tree.Valid() && i < |tree.nodes| && tree.nodes == Attached(N, i, possibleStates[..j])
      {
        assert possibleStates[j] in possibleStates;
        AttachedSnoc(N, i, possibleStates[..j], possibleStates[j]);
        assert possibleStates[..j + 1] == possibleStates[..j] + [possibleStates[j]];
        var c := AttachChild(tree, i, possibleStates[j]);
      }
      assert possibleStates[..|possibleStates|] == possibleStates;
    }

    /** backPropagation(nodeToExplore, playerNum): credit every node on the
        parent chain, once each, and nothing else. */
    static method BackPropagation(tree: Tree, nodeToExplore: nat, playerNum: int32)
      requires tree.Valid() && nodeToExplore < |tree.nodes|
      modifies tree`nodes
      ensures tree.Valid()
      ensures Propagated(old(tree.nodes), tree.nodes, nodeToExplore, playerNum)
    {
      ghost var N := tree.nodes;
      ghost var chain := Ancestors(N, nodeToExplore);
      var tempNode: Option<nat> := Some(nodeToExplore);
      ghost var done: seq<nat> := [];
      while tempNode.Some?
        invariant tree.Valid() && Arena(N)
        invariant tempNode.Some? ==>
          && tempNode.value < |N| && chain == done + Ancestors(N, tempNode.value)
          && forall a | 0 <= a < |done| :: tempNode.value < done[a]
        invariant tempNode.None? ==> chain == done
        invariant CreditedOn(N, tree.nodes, done, playerNum)
        decreases if tempNode.Some? then tempNode.value + 1 else 0
      {
        var m := tempNode.value;
        ChainStep(N, chain, done, m);
        CreditNode(tree, m, playerNum, N, done);
        done := done + [m];
        tempNode := tree.nodes[m].parent;
      }
    }

    /** The body of backPropagation's loop: `incrementVisit`, then
        `addScore` with the sign of whether the node belongs to the
        winner. */
    static method CreditNode(tree: Tree, m: nat, playerNum: int32, ghost N: seq<Node>, ghost done: seq<nat>)
      requires tree.Valid() && Arena(N) && m < |N| && m !in done
      requires CreditedOn(N, tree.nodes, done, playerNum)
      modifies tree`nodes
      ensures tree.Valid() && CreditedOn(N, tree.nodes, done + [m], playerNum)
      ensures tree.nodes[m].parent == N[m].parent
    {
      CreditStep(N, tree.nodes, done, m, playerNum);
      var st := tree.nodes[m].state;
      assert NodeOk(N, m) && st == N[m].state;
      CreditEffect(st, playerNum);
      tree.SetState(m, Credit(st, playerNum));
    }

    /** simulateGame(node), with the sentinel written where evidently
        intended, on the parent of the node explored (when it has one), and
        the playout loop replaced by the status it ends in. */
    method SimulateGame(tree: Tree, n: nat, o: Oracles, playout: int32) returns (r: int32)
      requires tree.Valid() && n < |tree.nodes|
      modifies tree`nodes
      ensures tree.Valid()
      ensures var status := o.status(old(tree.nodes[n].state.board));
        && (status == opponent ==> r == status)
        && (status != opponent ==> r == if status == o.inProgress then playout else status)
        && tree.nodes == if status == opponent then MarkParentDead(old(tree.nodes), n) else old(tree.nodes)
    {
      var status := o.status(tree.nodes[n].state.board);
      if status == opponent {
        assert NodeOk(tree.nodes, n);
        match tree.nodes[n].parent {
          case Some(p) =>
            assert NodeOk(tree.nodes, p);
            tree.SetState(p, tree.nodes[p].state.(winScore := Dead));
          case None =>
        }
        return status;
      }
      if status == o.inProgress {
        status := playout;
      }
      return status;
    }

    /** The copy-and-check findNextMove applies to each child's state:
        canOpponentWinNextMove on `new State(node.getState())`, whose turn
        switches land on the copy. */
    static method CanOpponentWinOn(v: BoardView, o: Oracles) returns (r: bool)
      requires ViewValid(v)
      ensures r == OpponentCanWin(v, o)
    {
      SwitchTurnFlips(v);
      var w := SwitchTurnView(v);
      r := CanReachGoalFromAny(w, o, w.players[w.cur].id);
    }

    /** The loop of findNextMove's guard over the root's children: the
        children after whose move the opponent cannot win at once, in
        order. */
    static method SafeChildren(ns: seq<Node>, root: nat, o: Oracles) returns (availableNodes: seq<nat>)
      requires Arena(ns) && root < |ns|
      ensures forall a | 0 <= a < |availableNodes| ::
        availableNodes[a] in ns[root].children && availableNodes[a] < |ns| && SafeAt(ns, availableNodes[a], o)
      ensures forall k | 0 <= k < |ns[root].children| ::
        0 <= ns[root].children[k] < |ns| && (SafeAt(ns, ns[root].children[k], o) ==> ns[root].children[k] in availableNodes)
    {
      assert NodeOk(ns, root);
      var kids := ns[root].children;
      availableNodes := [];
      for k := 0 to |kids|
        invariant forall a | 0 <= a < |availableNodes| ::
          availableNodes[a] in kids && availableNodes[a] < |ns| && SafeAt(ns, availableNodes[a], o)
        invariant forall j | 0 <= j < k :: SafeAt(ns, kids[j], o) ==> kids[j] in availableNodes
      {
        var node := kids[k];
        assert NodeOk(ns, node);
        var canWin := CanOpponentWinOn(ns[node].state.board, o);
        if !canWin {
          availableNodes := availableNodes + [node];
        }
      }
    }

    /** The guard of findNextMove, once the opponent is found able to win at
        once: expand the root, keep the children after which the opponent
        cannot, clear the root's children, and pick one of the kept ones at
        random (`pick` stands for `Random.nextInt`'s draw). */
    static method Guard(tree: Tree, o: Oracles, pick: nat, ghost s0: State) returns (winnerNode: Option<nat>)
      requires tree.Valid() && ViewValid(s0.board) && tree.nodes == [Node(s0, None, [])] && tree.root == 0
      modifies tree`nodes
      ensures tree.Valid() && tree.nodes[0] == Node(s0, None, [])
      ensures winnerNode.Some? ==>
        && 0 < winnerNode.value < |tree.nodes|
        && tree.nodes[winnerNode.value].state.board in BoardsOf(Expansion(s0, o, 5))
        && SafeAt(tree.nodes, winnerNode.value, o)
      ensures winnerNode.Some? <==> SomeSafe(Expansion(s0, o, 5), o)
    {
      var rootNode := tree.root;
      ghost var E := Expansion(s0, o, 5);
      ExpandFresh(tree, o, s0);
      winnerNode := PickSafe(tree.nodes, E, o, pick);
      ghost var ns := tree.nodes;
      tree.ClearChildren(rootNode);
      if winnerNode.Some? {
        assert tree.nodes[winnerNode.value] == ns[winnerNode.value];
      }
    }

    /** expand on the fresh root of the guard: one child per successor, in
        order, and nothing else. */
    static method ExpandFresh(tree: Tree, o: Oracles, ghost s0: State)
      requires tree.Valid() && ViewValid(s0.board) && tree.nodes == [Node(s0, None, [])] && tree.root == 0
      modifies tree`nodes
      ensures tree.Valid() && |tree.nodes| == 1 + |Expansion(s0, o, 5)|
      ensures tree.nodes[0] == Node(s0, None, [] + Range(1, |Expansion(s0, o, 5)|))
      ensures forall c | 1 <= c < |tree.nodes| :: tree.nodes[c].state.board == Expansion(s0, o, 5)[c - 1].board
    {
      Expand(tree, tree.root, o);
      FreshLayout(s0, Expansion(s0, o, 5));
    }

    /** The guard's choice on the expanded root: the children whose move
        leaves the opponent without an immediate win, and one of them picked
        by `pick`. */
    static method PickSafe(ns: seq<Node>, ghost E: seq<State>, o: Oracles, pick: nat) returns (winnerNode: Option<nat>)
      requires Arena(ns) && |ns| == 1 + |E| && ns[0].children == [] + Range(1, |E|)
      requires forall c | 1 <= c < |ns| :: ns[c].state.board == E[c - 1].board
      ensures winnerNode.Some? ==>
        && 0 < winnerNode.value < |ns|
        && ns[winnerNode.value].state.board in BoardsOf(E)
        && SafeAt(ns, winnerNode.value, o)
      ensures winnerNode.Some? <==> SomeSafe(E, o)
    {
      assert ns[0].children == Range(1, |E|);
      var availableNodes := SafeChildren(ns, 0, o);
      SafeChildrenMeaning(ns, E, availableNodes, o);
      KeptAreSuccessors(ns, E, availableNodes);
      if |availableNodes| > 0 {
        winnerNode := Some(availableNodes[pick % |availableNodes|]);
      } else {
        winnerNode := None;
      }
    }

    /** The search loop of findNextMove, one round per element of `draws`
        and `playouts` up to `iterations` (the clock's deadline becomes an
        iteration count). */
    method Search(tree: Tree, o: Oracles, explore: (int, int) -> real, iterations: nat,
                  draws: seq<real>, playouts: seq<int32>, ghost s0: State, ghost bs: seq<BoardView>)
      requires tree.Valid() && ViewValid(s0.board) && RootKept(tree.nodes, tree.root, s0, bs)
      requires bs == BoardsOf(Expansion(s0, o, 5))
      requires |draws| >= iterations && |playouts| >= iterations
      requires forall k | 0 <= k < |draws| :: 0.0 <= draws[k] < 1.0
      modifies tree`nodes
      ensures tree.Valid() && RootKept(tree.nodes, tree.root, s0, bs)
      ensures iterations > 0 && o.status(s0.board) == o.inProgress && bs != [] ==>
        tree.nodes[tree.root].children != []
    {
      for it := 0 to iterations
        invariant tree.Valid() && RootKept(tree.nodes, tree.root, s0, bs)
        invariant it > 0 && o.status(s0.board) == o.inProgress && bs != [] ==>
          tree.nodes[tree.root].children != []
      {
        var selectedNode := SelectPromisingNode(tree, explore);
        Grow(tree, selectedNode, o, s0, bs);
        Explore(tree, selectedNode, o, draws[it], playouts[it], s0, bs);
      }
    }

    /** Selection's outcome and expansion, the first half of a round: the
        selected node is expanded when its game is in progress. A leaf root
        is what selection picks, so a round from a childless root in
        progress gives it its children. */
    static method Grow(tree: Tree, selectedNode: nat, o: Oracles, ghost s0: State, ghost bs: seq<BoardView>)
      requires tree.Valid() && ViewValid(s0.board) && RootKept(tree.nodes, tree.root, s0, bs)
      requires bs == BoardsOf(Expansion(s0, o, 5))
      requires selectedNode < |tree.nodes| && tree.nodes[selectedNode].children == []
      requires tree.nodes[tree.root].children == [] ==> selectedNode == tree.root
      modifies tree`nodes
      ensures tree.Valid() && RootKept(tree.nodes, tree.root, s0, bs) && selectedNode < |tree.nodes|
      ensures |tree.nodes[tree.root].children| >= |old(tree.nodes[tree.root].children)|
      ensures o.status(s0.board) == o.inProgress && bs != [] ==> tree.nodes[tree.root].children != []
    {
      if o.status(tree.nodes[selectedNode].state.board) == o.inProgress {
        ExpandKeepsRoot(tree.nodes, selectedNode, tree.root, s0, o, bs);
        Expand(tree, selectedNode, o);
      }
    }

    /** Simulation and back-propagation, the second half of a round: from
        the selected node or one of its children drawn at random. */
    method Explore(tree: Tree, selectedNode: nat, o: Oracles, draw: real, playout: int32, ghost s0: State, ghost bs: seq<BoardView>)
      requires tree.Valid() && RootKept(tree.nodes, tree.root, s0, bs)
      requires selectedNode < |tree.nodes| && 0.0 <= draw < 1.0
      modifies tree`nodes
      ensures tree.Valid() && RootKept(tree.nodes, tree.root, s0, bs)
      ensures tree.nodes[tree.root].children == old(tree.nodes[tree.root].children)
    {
      assert NodeOk(tree.nodes, selectedNode);
      var nodeToExplore := selectedNode;
      if tree.nodes[selectedNode].children != [] {
        nodeToExplore := RandomChild(tree.nodes, selectedNode, draw).value;
      }
      MarkKeepsRoot(tree.nodes, nodeToExplore, tree.root, s0, bs);
      var result := SimulateGame(tree, nodeToExplore, o, playout);
      ghost var N1 := tree.nodes;
      BackPropagation(tree, nodeToExplore, result);
      CreditKeepsRoot(N1, tree.nodes, Ancestors(N1, nodeToExplore), result, tree.root, s0, bs);
    }

    /** Everything findNextMove does after setting up the root `s0`: the
        guard when `canWin`, the search when the guard picked nothing, and
        the choice of the returned board. */
    method Decide(tree: Tree, canWin: bool, o: Oracles, explore: (int, int) -> real, iterations: nat, pick: nat,
                  draws: seq<real>, playouts: seq<int32>, ghost s0: State) returns (r: Option<BoardView>)
      requires tree.Valid() && ViewValid(s0.board) && tree.nodes == [Node(s0, None, [])] && tree.root == 0
      requires |draws| >= iterations && |playouts| >= iterations
      requires forall k | 0 <= k < |draws| :: 0.0 <= draws[k] < 1.0
      modifies tree
      ensures r.Some? ==> ViewValid(r.value) && r.value in BoardsOf(Expansion(s0, o, 5))
      ensures canWin && SomeSafe(Expansion(s0, o, 5), o) ==> r.Some? && !OpponentCanWin(r.value, o)
      ensures (iterations > 0 && o.status(s0.board) == o.inProgress && Expansion(s0, o, 5) != []) ==> r.Some?
      ensures tree.Valid()
      ensures canWin && SomeSafe(Expansion(s0, o, 5), o) ==>
        && tree.nodes[0].children == []
        && SafeAt(tree.nodes, tree.root, o)
        && r == Some(tree.nodes[tree.root].state.board)
      ensures !(canWin && SomeSafe(Expansion(s0, o, 5), o)) ==> r == MaxChildBoard(tree.nodes, 0)
    {
      ghost var bs := BoardsOf(Expansion(s0, o, 5));
      var rootNode := tree.root;
      var winnerNode: Option<nat> := None;
      var canLoseNextMove := false;
      var flag := false;
      if canWin {
        canLoseNextMove := true;
        winnerNode := Guard(tree, o, pick, s0);
        if winnerNode.None? {
          flag := true;
        }
      }
      if winnerNode.None? || flag {
        Search(tree, o, explore, iterations, draws, playouts, s0, bs);
      }
      r := Choose(tree, winnerNode, rootNode);
      if winnerNode.None? && r.Some? {
        ghost var k :| 0 <= k < |tree.nodes[rootNode].children| && tree.nodes[rootNode].children[k] == tree.root;
      }
    }

    /** The final choice of findNextMove: the guard's pick when there is
        one, otherwise the child of the root with the most visits; the
        chosen node becomes the tree's root. Both of Java's branches on
        canLoseNextMove do the same, so they are written once. */
    static method Choose(tree: Tree, winnerNode: Option<nat>, rootNode: nat) returns (r: Option<BoardView>)
      requires tree.Valid() && rootNode < |tree.nodes|
      requires winnerNode.Some? ==> winnerNode.value < |tree.nodes|
      modifies tree`root
      ensures tree.Valid()
      ensures r.Some? ==> ViewValid(r.value) && r.value == tree.nodes[tree.root].state.board
      ensures winnerNode.Some? ==> tree.root == winnerNode.value && r.Some?
      ensures winnerNode.None? ==> r == MaxChildBoard(tree.nodes, rootNode)
      ensures winnerNode.None? && r.Some? ==> tree.root in tree.nodes[rootNode].children
    {
      r := None;
      match winnerNode {
        case Some(w) =>
          assert NodeOk(tree.nodes, w);
          tree.SetRoot(w);
          r := Some(tree.nodes[w].state.board);
        case None =>
          assert NodeOk(tree.nodes, rootNode);
          var childWithMaxScore := ChildWithMaxScore(tree.nodes, rootNode);
          if childWithMaxScore.Some? {
            var c := childWithMaxScore.value;
            assert NodeOk(tree.nodes, c);
            tree.SetRoot(c);
            r := Some(tree.nodes[c].state.board);
          }
      }
    }

    /** findNextMove(board): set up the root on the given board, run the
        guard when the opponent could win at once, otherwise (or when no
        move is safe) search, and return the board of the chosen child;
        `None` stands for the exception getChildWithMaxScore throws on a root
        without children. The board handed in is left as it was. */
    method FindNextMove(board: Board, o: Oracles, explore: (int, int) -> real, iterations: nat, pick: nat,
                        draws: seq<real>, playouts: seq<int32>) returns (r: Option<BoardView>)
      requires board.Valid()
      requires |draws| >= iterations && |playouts| >= iterations
      requires forall k | 0 <= k < |draws| :: 0.0 <= draws[k] < 1.0
      modifies this, board, board.players[0], board.players[1]
      ensures board.Valid() && board.View() == old(board.View())
      ensures opponent == 3 - old(board.View()).players[old(board.View()).cur].id
      ensures r.Some? ==> ViewValid(r.value) && r.value in BoardsOf(Expansion(RootState(old(board.View())), o, 5))
      ensures OpponentCanWin(old(board.View()), o) && SomeSafe(Expansion(RootState(old(board.View())), o, 5), o)
        ==> r.Some? && !OpponentCanWin(r.value, o)
      ensures (&& iterations > 0 && o.status(old(board.View())) == o.inProgress
               && Expansion(RootState(old(board.View())), o, 5) != [])
        ==> r.Some?
    {
      var playerNum := board.currPlayer.id;
      opponent := 3 - playerNum;
      var canWin := CanOpponentWinNextMove(board, o);
      r := Respond(board.View(), canWin, o, explore, iterations, pick, draws, playouts);
    }

    /** The rest of findNextMove once the guard's test is known: a fresh
        search tree rooted at the board `v`, and the decision on it. The
        test restores the board it switches the turn on, so building the
        tree after it, rather than before, gives the same root. */
    method Respond(v: BoardView, canWin: bool, o: Oracles, explore: (int, int) -> real, iterations: nat, pick: nat,
                   draws: seq<real>, playouts: seq<int32>) returns (r: Option<BoardView>)
      requires ViewValid(v)
      requires |draws| >= iterations && |playouts| >= iterations
      requires forall k | 0 <= k < |draws| :: 0.0 <= draws[k] < 1.0
      ensures r.Some? ==> ViewValid(r.value) && r.value in BoardsOf(Expansion(RootState(v), o, 5))
      ensures canWin && SomeSafe(Expansion(RootState(v), o, 5), o) ==> r.Some? && !OpponentCanWin(r.value, o)
      ensures iterations > 0 && o.status(v) == o.inProgress && Expansion(RootState(v), o, 5) != [] ==> r.Some?
    {
      var tree := NewSearchTree(v, 3 - v.players[v.cur].id);
      r := Decide(tree, canWin, o, explore, iterations, pick, draws, playouts, RootState(v));
    }

    /** The tree findNextMove starts from: `new Tree()`, whose root state
        then gets the board and the player number. */
    static method NewSearchTree(v: BoardView, opponent: int32) returns (tree: Tree)
      requires ViewValid(v) && opponent == 3 - v.players[v.cur].id
      ensures fresh(tree) && tree.Valid() && tree.root == 0 && tree.nodes == [Node(RootState(v), None, [])]
    {
      tree := new Tree();
      var rootNode := tree.root;
      tree.SetState(rootNode, tree.nodes[rootNode].state.(board := v, playerNum := opponent));
    }
  }

  /** getMillisForCurrentLevel grows with the level: 2 * level - 1
      milliseconds, so the default level 3 searches for 300 ms. */
  lemma {:induction false} MillisOfLevel(p: MCTSPlayer)
    requires 1 <= p.level <= 0x4000_0000
    ensures p.MillisForCurrentLevel() == 2 * p.level - 1
    ensures forall start :: p.Deadline(start) == start + 120 * p.level - 60
    ensures p.level == 3 ==> forall start :: p.Deadline(start) == start + 300
  {
  }

  /** Back-propagation never overwrites the `Integer.MIN_VALUE` sentinel:
      a node marked dead stays dead. */
  lemma {:induction false} PropagationKeepsSentinel(old_: seq<Node>, new_: seq<Node>, n: int, winner: int32, j: int)
    requires Arena(old_) && 0 <= n < |old_| && Propagated(old_, new_, n, winner)
    requires 0 <= j < |old_| && old_[j].state.winScore == Dead
    ensures new_[j].state.winScore == Dead
  {
  }

  /** Back-propagation adds exactly one visit to each node on the chain and
      leaves the boards and the tree's shape alone. */
  lemma {:induction false} PropagationCountsOneVisit(old_: seq<Node>, new_: seq<Node>, n: int, winner: int32, j: int)
    requires Arena(old_) && 0 <= n < |old_| && Propagated(old_, new_, n, winner)
    requires 0 <= j < |old_| && old_[j].state.visitCount < INT_MAX
    ensures new_[j].state.visitCount == old_[j].state.visitCount + (if j in Ancestors(old_, n) then 1 else 0)
    ensures new_[j].state.board == old_[j].state.board
    ensures new_[j].parent == old_[j].parent && new_[j].children == old_[j].children
  {
  }
}
