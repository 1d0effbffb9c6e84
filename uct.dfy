/** UCT: the upper confidence bound the search uses to pick which child to
    descend into. The exploration term `1.41 * sqrt(ln totalVisit /
    nodeVisit)` is floating point and stays a parameter, `explore`. */
module Uct {
  import opened Common
  import opened States
  import opened Trees

  /** UCT.uctValue. */
  function UctValue(totalVisit: int32, nodeWinScore: real, nodeVisit: int32, explore: (int, int) -> real): (u: real)
  {
    if nodeVisit == 0 then INT_MAX as real
    else nodeWinScore / (nodeVisit as real) + explore(totalVisit, nodeVisit)
  }

  /** An unvisited node scores `Integer.MAX_VALUE`; a visited one scores its
      mean win score plus an exploration bonus that depends on the two visit
      counts only, not on the score. */
  lemma {:induction false} UctValueParts(totalVisit: int32, nodeWinScore: real, nodeVisit: int32, explore: (int, int) -> real)
    ensures nodeVisit == 0 ==> UctValue(totalVisit, nodeWinScore, nodeVisit, explore) == INT_MAX as real
    ensures nodeVisit != 0 ==>
      UctValue(totalVisit, nodeWinScore, nodeVisit, explore) - nodeWinScore / (nodeVisit as real)
      == UctValue(totalVisit, 0.0, nodeVisit, explore)
  {
  }

  /** With the visit counts fixed, a higher win score never lowers the UCT
      value of a visited node. */
  lemma {:induction false} UctValueMonotone(totalVisit: int32, s1: real, s2: real, nodeVisit: int32, explore: (int, int) -> real)
    requires nodeVisit > 0 && s1 <= s2
    ensures UctValue(totalVisit, s1, nodeVisit, explore) <= UctValue(totalVisit, s2, nodeVisit, explore)
  {
    var n := nodeVisit as real;
    assert s2 / n - s1 / n == (s2 - s1) / n;
  }

  /** The UCT value of child `c` seen from node `i`: the parent's visit
      count is node `i`'s own. */
  function ChildUct(ns: seq<Node>, i: int, c: int, explore: (int, int) -> real): real
    requires 0 <= i < |ns| && 0 <= c < |ns|
  {
    UctValue(ns[i].state.visitCount, ns[c].state.winScore, ns[c].state.visitCount, explore)
  }

  /** The UCT values of the children of node `i`, in order. */
  function ChildUcts(ns: seq<Node>, i: int, explore: (int, int) -> real): (us: seq<real>)
    requires 0 <= i < |ns| && NodeOk(ns, i)
    ensures |us| == |ns[i].children|
    ensures forall k | 0 <= k < |us| :: us[k] == ChildUct(ns, i, ns[i].children[k], explore)
  {
    seq(|ns[i].children|, k requires 0 <= k < |ns[i].children| => ChildUct(ns, i, ns[i].children[k], explore))
  }

  /** UCT.findBestNodeWithUCT: the first child with the largest UCT value;
      `None` where Collections.max throws on an empty list. */
  function FindBestNodeWithUct(ns: seq<Node>, i: int, explore: (int, int) -> real): (r: Option<nat>)
    requires 0 <= i < |ns| && NodeOk(ns, i)
    ensures r.Some? <==> ns[i].children != []
    ensures r.Some? ==> r.value in ns[i].children && i < r.value < |ns|
    ensures r.Some? ==> forall c | c in ns[i].children :: c < |ns| && ChildUct(ns, i, c, explore) <= ChildUct(ns, i, r.value, explore)
    ensures r.Some? ==> exists k | 0 <= k < |ns[i].children| ::
      && ns[i].children[k] == r.value
      && forall j | 0 <= j < k :: ChildUct(ns, i, ns[i].children[j], explore) < ChildUct(ns, i, r.value, explore)
  {
    var kids := ns[i].children;
    if kids == [] then None
    else
      var k := FirstMaxIndex(ChildUcts(ns, i, explore));
      assert forall c | c in kids :: exists j | 0 <= j < |kids| :: kids[j] == c;
      Some(kids[k])
  }

  /** Unvisited children come first: when some child has never been visited
      and every visited child scores below `Integer.MAX_VALUE`, the choice is
      an unvisited child, the first one in the list. */
  lemma {:induction false} UnvisitedChildFirst(ns: seq<Node>, i: int, explore: (int, int) -> real, k: int)
    requires 0 <= i < |ns| && NodeOk(ns, i) && 0 <= k < |ns[i].children|
    requires ns[ns[i].children[k]].state.visitCount == 0
    requires forall j | 0 <= j < k :: ns[ns[i].children[j]].state.visitCount != 0
    requires forall c | c in ns[i].children && ns[c].state.visitCount != 0 :: ChildUct(ns, i, c, explore) < INT_MAX as real
    ensures FindBestNodeWithUct(ns, i, explore) == Some(ns[i].children[k])
  {
    var kids := ns[i].children;
    var r := FindBestNodeWithUct(ns, i, explore).value;
    var c := kids[k];
    assert c in kids;
    assert ChildUct(ns, i, c, explore) == INT_MAX as real;
    var m :| 0 <= m < |kids| && kids[m] == r
      && forall j | 0 <= j < m :: ChildUct(ns, i, kids[j], explore) < ChildUct(ns, i, r, explore);
    assert ns[r].state.visitCount == 0;
    if m != k {
      assert false;
    }
  }

  /** selectPromisingNode's walk: from node `i`, follow the UCT-best child
      until a node without children. */
  function Descent(ns: seq<Node>, i: int, explore: (int, int) -> real): (r: nat)
    requires Arena(ns) && 0 <= i < |ns|
    ensures i <= r < |ns| && ns[r].children == []
    decreases |ns| - i
  {
    match FindBestNodeWithUct(ns, i, explore)
    case None => i
    case Some(c) => Descent(ns, c, explore)
  }
}
