/** State.evaluate: the heuristic score of a board for the player to move,
    built from the distances Board.getDistanceToGoal reports for the cells
    of both players' knights. */
module Evaluation {
  import opened Common
  import opened Cells
  import opened Players
  import opened Boards
  import opened States

  /** Java's `currentPlayer`: the id of the player to move. */
  function Me(v: BoardView): int
    requires ViewValid(v)
  {
    v.players[v.cur].id
  }

  /** Java's `otherPlayer`: 2 when the player to move is 1, otherwise 1. */
  function Other(v: BoardView): int
    requires ViewValid(v)
  {
    if Me(v) == 1 then 2 else 1
  }

  /** The index of the opponent in the players list. */
  function OppIndex(v: BoardView): int
    requires ViewValid(v)
  {
    Other(v) - 1
  }

  /** The cell of slot `k` of the player at index `i`. */
  function SlotCell(v: BoardView, i: int, k: int): Square
    requires ViewValid(v) && 0 <= i < 2 && 0 <= k < 5
  {
    v.players[i].slots[k].value
  }

  /** The cell of slot `k` holds two pieces: a knight carrying a ball. */
  predicate Carrier(v: BoardView, i: int, k: int)
    requires ViewValid(v) && 0 <= i < 2 && 0 <= k < 5
  {
    |At(v.grid, SlotCell(v, i, k))| == 2
  }

  /** The distance to goal of that cell, measured for the player to move. */
  function Dist(v: BoardView, o: Oracles, i: int, k: int): int32
    requires ViewValid(v) && 0 <= i < 2 && 0 <= k < 5
  {
    o.distance(v, SlotCell(v, i, k), Me(v))
  }

  /** The opponent has a ball one step from the goal. */
  predicate Blocks(v: BoardView, o: Oracles)
    requires ViewValid(v)
  {
    exists k | 0 <= k < 5 :: Carrier(v, OppIndex(v), k) && Dist(v, o, OppIndex(v), k) == 1
  }

  /** Some opponent knight is within distance 3. */
  predicate Defensive(v: BoardView, o: Oracles)
    requires ViewValid(v)
  {
    exists k | 0 <= k < 5 :: Dist(v, o, OppIndex(v), k) <= 3
  }

  /** Some opponent knight is farther than distance 3. */
  predicate Offensive(v: BoardView, o: Oracles)
    requires ViewValid(v)
  {
    exists k | 0 <= k < 5 :: Dist(v, o, OppIndex(v), k) > 3
  }

  /** One of the mover's own knights carries a ball at distance 0. */
  predicate AtGoal(v: BoardView, o: Oracles)
    requires ViewValid(v)
  {
    exists k | 0 <= k < 5 :: Carrier(v, v.cur, k) && Dist(v, o, v.cur, k) == 0
  }

  /** The smallest carrier distance seen so far and the slot that first
      reached it (`farthestCell`; `None` for Java's `null`). */
  datatype Nearest = Nearest(dist: int, slot: Option<nat>)

  /** The scan over the mover's first `n` slots that looks for its nearest
      carrier, keeping the first one that is strictly nearer. */
  function ScanCarriers(v: BoardView, o: Oracles, n: nat): (r: Nearest)
    requires ViewValid(v) && n <= 5
    ensures r.slot.Some? ==> r.slot.value < n
  {
    if n == 0 then Nearest(INT_MAX, None)
    else
      var prev := ScanCarriers(v, o, n - 1);
      if Carrier(v, v.cur, n - 1) && Dist(v, o, v.cur, n - 1) < prev.dist then Nearest(Dist(v, o, v.cur, n - 1), Some(n - 1))
      else prev
  }

  /** The scan finds the minimum carrier distance (`Integer.MAX_VALUE` when
      there is none), and its slot is the first carrier at that distance;
      no slot is kept exactly when the minimum is `Integer.MAX_VALUE`. */
  lemma {:induction false} ScanCarriersIsFirstMin(v: BoardView, o: Oracles, n: nat)
    requires ViewValid(v) && n <= 5
    ensures var s := ScanCarriers(v, o, n);
      && s.dist <= INT_MAX
      && (forall j | 0 <= j < n && Carrier(v, v.cur, j) :: s.dist <= Dist(v, o, v.cur, j))
      && (s.slot.None? <==> s.dist == INT_MAX)
      && (s.slot.Some? ==>
            && s.slot.value < n
            && Carrier(v, v.cur, s.slot.value)
            && Dist(v, o, v.cur, s.slot.value) == s.dist
            && forall j | 0 <= j < s.slot.value && Carrier(v, v.cur, j) :: Dist(v, o, v.cur, j) > s.dist)
  {
    if n > 0 {
      ScanCarriersIsFirstMin(v, o, n - 1);
    }
  }

  /** The smallest of `start` and the distances of the cells `ps`. */
  function MinDistance(v: BoardView, o: Oracles, ps: seq<Square>, start: int): (m: int)
    requires ViewValid(v)
    ensures m <= start
    ensures forall p | p in ps :: m <= o.distance(v, p, Me(v))
    ensures m == start || exists p | p in ps :: m == o.distance(v, p, Me(v))
  {
    if ps == [] then start
    else
      var m := MinDistance(v, o, ps[..|ps| - 1], start);
      var d := o.distance(v, ps[|ps| - 1], Me(v));
      assert ps == ps[..|ps| - 1] + [ps[|ps| - 1]];
      if d < m then d else m
  }

  /** Java's `farthestDistance`: the nearest carrier's distance, lowered to
      the best distance among the destinations it could move to. */
  function FarthestDistance(v: BoardView, o: Oracles): int
    requires ViewValid(v)
  {
    var s := ScanCarriers(v, o, 5);
    match s.slot
    case None => s.dist
    case Some(k) => MinDistance(v, o, o.available(v, SlotCell(v, v.cur, k)), s.dist)
  }

  /** The value State.evaluate returns, with Java's `int` wrap-around on
      `farthestDistance + 1` and on the products. */
  function EvaluateSpec(v: BoardView, o: Oracles): int32
    requires ViewValid(v)
  {
    if Blocks(v, o) then -10
    else if AtGoal(v, o) then 10
    else
      var d := Wrap32(FarthestDistance(v, o) + 1);
      if Defensive(v, o) then Wrap32(2 * d)
      else if Offensive(v, o) then Wrap32(10 * d)
      else d
  }

  /** State.evaluate(board): the checks run in Java's order, each loop in
      its own method below. */
  method Evaluate(v: BoardView, o: Oracles) returns (r: int32)
    requires ViewValid(v)
    ensures r == EvaluateSpec(v, o)
  {
    var blockOpponent := BlocksOpponent(v, o);
    if blockOpponent {
      return -10;
    }
    var defensive, offensive := Closeness(v, o);
    var atGoal := ReachesGoal(v, o);
    if atGoal {
      return 10;
    }
    var nearest := NearestCarrier(v, o);
    var farthestDistance := nearest.dist;
    if nearest.slot.Some? {
      var availablePositions := o.available(v, v.players[v.cur].slots[nearest.slot.value].value);
      farthestDistance := BestReach(v, o, availablePositions, nearest.dist);
    }
    if defensive {
      r := Wrap32(2 * Wrap32(farthestDistance + 1));
    } else if offensive {
      r := Wrap32(10 * Wrap32(farthestDistance + 1));
    } else {
      r := Wrap32(farthestDistance + 1);
    }
  }

  /** The first loop of evaluate: whether an opponent knight carries a ball
      at distance 1. */
  method BlocksOpponent(v: BoardView, o: Oracles) returns (blockOpponent: bool)
    requires ViewValid(v)
    ensures blockOpponent == Blocks(v, o)
  {
    var currentPlayer := v.players[v.cur].id;
    var otherPlayer := if currentPlayer == 1 then 2 else 1;
    var oi := otherPlayer - 1;
    assert currentPlayer == Me(v) && oi == OppIndex(v);
    var opp := v.players[oi];
    blockOpponent := false;
    for k := 0 to 5
      invariant blockOpponent <==> exists j | 0 <= j < k :: Carrier(v, oi, j) && Dist(v, o, oi, j) == 1
    {
      var cell := opp.slots[k].value;
      assert Carrier(v, oi, k) <==> |At(v.grid, cell)| == 2;
      if |At(v.grid, cell)| == 2 && !blockOpponent {
        var distance := o.distance(v, cell, currentPlayer);
        assert distance == Dist(v, o, oi, k);
        if distance == 1 {
          blockOpponent := true;
        }
      }
    }
  }

  /** The next two loops: whether some opponent knight is within distance 3,
      and whether some is beyond it. */
  method Closeness(v: BoardView, o: Oracles) returns (defensive: bool, offensive: bool)
    requires ViewValid(v)
    ensures defensive == Defensive(v, o) && offensive == Offensive(v, o)
  {
    var currentPlayer := v.players[v.cur].id;
    var otherPlayer := if currentPlayer == 1 then 2 else 1;
    var oi := otherPlayer - 1;
    assert currentPlayer == Me(v) && oi == OppIndex(v);
    var opp := v.players[oi];
    defensive := false;
    for k := 0 to 5
      invariant defensive <==> exists j | 0 <= j < k :: Dist(v, o, oi, j) <= 3
    {
      var distance := o.distance(v, opp.slots[k].value, currentPlayer);
      assert distance == Dist(v, o, oi, k);
      if distance <= 3 && !defensive {
        defensive := true;
      }
    }
    offensive := false;
    for k := 0 to 5
      invariant offensive <==> exists j | 0 <= j < k :: Dist(v, o, oi, j) > 3
    {
      var distance := o.distance(v, opp.slots[k].value, currentPlayer);
      assert distance == Dist(v, o, oi, k);
      if distance > 3 && !offensive {
        offensive := true;
      }
    }
  }

  /** The loop that returns 10 early: whether one of the mover's knights
      carries a ball at distance 0. */
  method ReachesGoal(v: BoardView, o: Oracles) returns (atGoal: bool)
    requires ViewValid(v)
    ensures atGoal == AtGoal(v, o)
  {
    var currentPlayer := v.players[v.cur].id;
    assert currentPlayer == Me(v);
    var mine := v.players[v.cur];
    for k := 0 to 5
      invariant !exists j | 0 <= j < k :: Carrier(v, v.cur, j) && Dist(v, o, v.cur, j) == 0
    {
      var cell := mine.slots[k].value;
      if |At(v.grid, cell)| == 2 {
        var distance := o.distance(v, cell, currentPlayer);
        if distance == 0 {
          assert Carrier(v, v.cur, k) && Dist(v, o, v.cur, k) == 0;
          return true;
        }
      }
    }
    return false;
  }

  /** The loop that finds `currentDistance` and `farthestCell`. */
  method NearestCarrier(v: BoardView, o: Oracles) returns (n: Nearest)
    requires ViewValid(v)
    ensures n == ScanCarriers(v, o, 5)
  {
    var currentPlayer := v.players[v.cur].id;
    assert currentPlayer == Me(v);
    var mine := v.players[v.cur];
    var currentDistance := INT_MAX;
    var farthestCell: Option<nat> := None;
    for k := 0 to 5
      invariant Nearest(currentDistance, farthestCell) == ScanCarriers(v, o, k)
    {
      var cell := mine.slots[k].value;
      if |At(v.grid, cell)| == 2 {
        var distance := o.distance(v, cell, currentPlayer);
        if distance < currentDistance {
          currentDistance := distance;
          farthestCell := Some(k);
        }
      }
    }
    n := Nearest(currentDistance, farthestCell);
  }

  /** The last loop: `farthestDistance` lowered to the best distance among
      `availablePositions`. */
  method BestReach(v: BoardView, o: Oracles, availablePositions: seq<Square>, currentDistance: int) returns (farthestDistance: int)
    requires ViewValid(v)
    ensures farthestDistance == MinDistance(v, o, availablePositions, currentDistance)
  {
    var currentPlayer := v.players[v.cur].id;
    assert currentPlayer == Me(v);
    farthestDistance := currentDistance;
    for j := 0 to |availablePositions|
      invariant farthestDistance == MinDistance(v, o, availablePositions[..j], currentDistance)
    {
      assert availablePositions[..j + 1][..j] == availablePositions[..j];
      var distance := o.distance(v, availablePositions[j], currentPlayer);
      if distance < farthestDistance {
        farthestDistance := distance;
      }
    }
    assert availablePositions[..|availablePositions|] == availablePositions;
  }

  /** evaluate takes one of exactly three shapes: -10 when the opponent has
      a ball one step from the goal; otherwise 10 when the mover has a ball
      on it; otherwise the wrapped distance term scaled by 2 or by 10. The
      unscaled `farthestDistance + 1` return never happens. */
  lemma {:induction false} EvaluateCases(v: BoardView, o: Oracles)
    requires ViewValid(v)
    ensures Blocks(v, o) ==> EvaluateSpec(v, o) == -10
    ensures !Blocks(v, o) && AtGoal(v, o) ==> EvaluateSpec(v, o) == 10
    ensures !Blocks(v, o) && !AtGoal(v, o) ==>
      EvaluateSpec(v, o) == Wrap32((if Defensive(v, o) then 2 else 10) * Wrap32(FarthestDistance(v, o) + 1))
  {
    EvaluateLastBranchUnreachable(v, o);
  }

  /** Every opponent knight is either within distance 3 or beyond it, so on
      a well-formed board one of the two flags is always raised and the
      plain `farthestDistance + 1` branch is never taken. */
  lemma {:induction false} EvaluateLastBranchUnreachable(v: BoardView, o: Oracles)
    requires ViewValid(v)
    ensures Defensive(v, o) || Offensive(v, o)
  {
    if Dist(v, o, OppIndex(v), 0) <= 3 {
      assert Defensive(v, o);
    } else {
      assert Offensive(v, o);
    }
  }

  /** With no knight of the mover carrying a ball nearer than
      `Integer.MAX_VALUE`, `farthestDistance + 1` overflows to
      `Integer.MIN_VALUE` and both products wrap to 0: such a board scores
      0, however near or far the opponent is. */
  lemma {:induction false} EvaluateWithoutCarrier(v: BoardView, o: Oracles)
    requires ViewValid(v) && !Blocks(v, o) && !AtGoal(v, o)
    requires forall k | 0 <= k < 5 && Carrier(v, v.cur, k) :: Dist(v, o, v.cur, k) == INT_MAX
    ensures EvaluateSpec(v, o) == 0
  {
    ScanCarriersIsFirstMin(v, o, 5);
    EvaluateLastBranchUnreachable(v, o);
    Wrap32Overflow();
  }

  /** Otherwise the score is the distance the ball can reach plus one, twice
      over when the opponent is near and ten times over when it is not. */
  lemma {:induction false} EvaluateWithCarrier(v: BoardView, o: Oracles, k: int)
    requires ViewValid(v) && !Blocks(v, o) && !AtGoal(v, o)
    requires 0 <= k < 5 && Carrier(v, v.cur, k) && 0 <= Dist(v, o, v.cur, k) < INT_MAX
    requires forall p :: 0 <= o.distance(v, p, Me(v))
    ensures 0 <= FarthestDistance(v, o) <= Dist(v, o, v.cur, k)
    ensures Defensive(v, o) ==> EvaluateSpec(v, o) == Wrap32(2 * (FarthestDistance(v, o) + 1))
    ensures !Defensive(v, o) ==> EvaluateSpec(v, o) == Wrap32(10 * (FarthestDistance(v, o) + 1))
  {
    ScanCarriersIsFirstMin(v, o, 5);
    EvaluateLastBranchUnreachable(v, o);
    var s := ScanCarriers(v, o, 5);
    assert s.dist <= Dist(v, o, v.cur, k);
    assert s.slot.Some?;
  }
}
