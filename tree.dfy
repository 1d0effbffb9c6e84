/** Node and Tree: the search tree of the AI, kept as an arena. A Java
    `Node` reference is its index in `Tree.nodes`; `parent` and the child
    list hold indices. Every parent sits before its children in the arena,
    which is what makes walks down and up the tree terminate. */
module Trees {
  import opened Common
  import opened Boards
  import opened States

  /** Node: its state, the index of its parent (`None` for Java's `null`)
      and the indices of its children in order. */
  datatype Node = Node(state: State, parent: Option<nat>, children: seq<nat>)

  /** Node `i` of `ns` is well placed: its parent comes before it, its
      children after it and inside the arena, and its board is well formed. */
  predicate NodeOk(ns: seq<Node>, i: int)
    requires 0 <= i < |ns|
  {
    && (ns[i].parent.Some? ==> ns[i].parent.value < i)
    && (forall k | 0 <= k < |ns[i].children| :: i < ns[i].children[k] < |ns|)
    && ViewValid(ns[i].state.board)
  }

  /** The nodes below `n` have their children below `n` too. */
  predicate Closed(ns: seq<Node>, n: int)
    requires n <= |ns|
  {
    forall q | 0 <= q < n :: forall k | 0 <= k < |ns[q].children| :: ns[q].children[k] < n
  }

  predicate Arena(ns: seq<Node>)
  {
    forall i | 0 <= i < |ns| :: NodeOk(ns, i)
  }

  /** In a well-formed arena a node's parent comes before it. */
  lemma {:induction false} ParentBelow(ns: seq<Node>, i: int)
    requires Arena(ns) && 0 <= i < |ns|
    ensures ns[i].parent.Some? ==> ns[i].parent.value < i
  {
    assert NodeOk(ns, i);
  }

  /** Replacing one node by a well-placed one keeps the arena well formed. */
  lemma {:induction false} ArenaUpdate(ns: seq<Node>, p: int, n: Node)
    requires Arena(ns) && 0 <= p < |ns|
    requires n.parent.Some? ==> n.parent.value < p
    requires forall k | 0 <= k < |n.children| :: p < n.children[k] < |ns|
    requires ViewValid(n.state.board)
    ensures Arena(ns[p := n])
  {
    var ns' := ns[p := n];
    forall i | 0 <= i < |ns'|
      ensures NodeOk(ns', i)
    {
      if i != p {
        assert ns'[i] == ns[i] && NodeOk(ns, i);
      }
    }
  }

  /** Appending a node with an earlier parent and no children keeps the
      arena well formed. */
  lemma {:induction false} ArenaAppend(ns: seq<Node>, n: Node)
    requires Arena(ns)
    requires n.parent.Some? ==> n.parent.value < |ns|
    requires n.children == [] && ViewValid(n.state.board)
    ensures Arena(ns + [n])
  {
    var ns' := ns + [n];
    forall i | 0 <= i < |ns'|
      ensures NodeOk(ns', i)
    {
      if i < |ns| {
        assert ns'[i] == ns[i] && NodeOk(ns, i);
      }
    }
  }

  /** The first index holding the largest value: Collections.max keeps its
      candidate unless a later element compares strictly greater. */
  function FirstMaxIndex(xs: seq<real>): (k: nat)
    requires |xs| > 0
    ensures k < |xs|
    ensures forall j | 0 <= j < |xs| :: xs[j] <= xs[k]
    ensures forall j | 0 <= j < k :: xs[j] < xs[k]
  {
    if |xs| == 1 then 0
    else
      var k := FirstMaxIndex(xs[..|xs| - 1]);
      if xs[|xs| - 1] > xs[k] then |xs| - 1 else k
  }

  /** The visit counts of the children of node `i`, in order. */
  function ChildVisits(ns: seq<Node>, i: int): (vs: seq<real>)
    requires 0 <= i < |ns| && NodeOk(ns, i)
    ensures |vs| == |ns[i].children|
    ensures forall k | 0 <= k < |vs| :: vs[k] == ns[ns[i].children[k]].state.visitCount as real
  {
    seq(|ns[i].children|, k requires 0 <= k < |ns[i].children| => ns[ns[i].children[k]].state.visitCount as real)
  }

  /** Node.getChildWithMaxScore: the first child with the highest visit
      count; `None` where Collections.max throws on an empty list. */
  function ChildWithMaxScore(ns: seq<Node>, i: int): (r: Option<nat>)
    requires 0 <= i < |ns| && NodeOk(ns, i)
    ensures r.Some? <==> ns[i].children != []
    ensures r.Some? ==> r.value in ns[i].children && r.value < |ns|
    ensures r.Some? ==> forall c | c in ns[i].children :: ns[c].state.visitCount <= ns[r.value].state.visitCount
    ensures r.Some? ==> exists k | 0 <= k < |ns[i].children| ::
      && ns[i].children[k] == r.value
      && forall j | 0 <= j < k :: ns[ns[i].children[j]].state.visitCount < ns[r.value].state.visitCount
  {
    var kids := ns[i].children;
    if kids == [] then None
    else
      var vs := ChildVisits(ns, i);
      var k := FirstMaxIndex(vs);
      assert forall c | c in kids :: exists j | 0 <= j < |kids| :: kids[j] == c;
      Some(kids[k])
  }

  /** Node.getRandomChildNode with `Math.random()` passed in as `x`: child
      number `(int) (x * size)`; `None` where `get` throws on an empty list. */
  function RandomChild(ns: seq<Node>, i: int, x: real): (r: Option<nat>)
    requires 0 <= i < |ns| && 0.0 <= x < 1.0
    ensures r.Some? <==> ns[i].children != []
    ensures r.Some? ==> r.value in ns[i].children
  {
    var kids := ns[i].children;
    if kids == [] then None
    else
      var n := |kids| as real;
      assert x * n < n;
      Some(kids[(x * n).Floor])
  }

  /** Every child can be drawn: the draw `k / size` picks child number `k`. */
  lemma {:induction false} RandomChildReachesAll(ns: seq<Node>, i: int, k: int)
    requires 0 <= i < |ns| && 0 <= k < |ns[i].children|
    ensures var x := k as real / |ns[i].children| as real;
      0.0 <= x < 1.0 && RandomChild(ns, i, x) == Some(ns[i].children[k])
  {
    var n := |ns[i].children| as real;
    var x := k as real / n;
    assert x * n == k as real;
    assert (x * n).Floor == k;
    assert 0.0 <= x < 1.0;
  }

  /** The subtree at `j` copies the subtree at `i`: equal states, the same
      parent, and as many children, each a copy of the child in the same
      place. */
  ghost predicate CopyOf(ns: seq<Node>, j: int, i: int)
    requires 0 <= i < |ns| && 0 <= j < |ns|
    decreases |ns| - i
  {
    && ns[j].state == ns[i].state
    && ns[j].parent == ns[i].parent
    && |ns[j].children| == |ns[i].children|
    && forall k | 0 <= k < |ns[i].children| ::
         && i < ns[i].children[k] < |ns|
         && 0 <= ns[j].children[k] < |ns|
         && CopyOf(ns, ns[j].children[k], ns[i].children[k])
  }

  /** A copy stays a copy when more nodes are appended to the arena. */
  lemma {:induction false} CopyOfExtend(ns: seq<Node>, ns': seq<Node>, j: int, i: int)
    requires 0 <= i < |ns| && 0 <= j < |ns| && |ns| <= |ns'| && ns'[..|ns|] == ns
    requires CopyOf(ns, j, i)
    ensures CopyOf(ns', j, i)
    decreases |ns| - i
  {
    assert ns'[i] == ns[i] && ns'[j] == ns[j];
    forall k | 0 <= k < |ns[i].children|
      ensures CopyOf(ns', ns[j].children[k], ns[i].children[k])
    {
      CopyOfExtend(ns, ns', ns[j].children[k], ns[i].children[k]);
    }
  }

  /** A copy stays a copy when a node outside both subtrees changes: one
      after the copy's root and the original subtree, which lies below `n`. */
  lemma {:induction false} CopyOfFrame(ns: seq<Node>, ns': seq<Node>, j: int, i: int, m: int, n: int)
    requires 0 <= i < n <= m < j < |ns| && |ns'| == |ns|
    requires forall q | 0 <= q < |ns| && q != m :: ns'[q] == ns[q]
    requires Closed(ns, n) && Arena(ns) && CopyOf(ns, j, i)
    ensures CopyOf(ns', j, i)
    decreases |ns| - i
  {
    assert ns'[i] == ns[i] && ns'[j] == ns[j];
    forall k | 0 <= k < |ns[i].children|
      ensures CopyOf(ns', ns[j].children[k], ns[i].children[k])
    {
      assert NodeOk(ns, j);
      CopyOfFrame(ns, ns', ns[j].children[k], ns[i].children[k], m, n);
    }
  }

  /** CopyOfExtend for a whole list of copies. */
  lemma {:induction false} CopiesExtend(ns: seq<Node>, ns': seq<Node>, copies: seq<nat>, kids: seq<nat>)
    requires |copies| <= |kids| && |ns| <= |ns'| && ns'[..|ns|] == ns
    requires forall m | 0 <= m < |copies| :: copies[m] < |ns| && kids[m] < |ns| && CopyOf(ns, copies[m], kids[m])
    ensures forall m | 0 <= m < |copies| :: CopyOf(ns', copies[m], kids[m])
  {
    forall m | 0 <= m < |copies|
      ensures CopyOf(ns', copies[m], kids[m])
    {
      CopyOfExtend(ns, ns', copies[m], kids[m]);
    }
  }

  /** CopyOfFrame for a whole list of copies, all placed after node `m`. */
  lemma {:induction false} CopiesFrame(ns: seq<Node>, ns': seq<Node>, copies: seq<nat>, kids: seq<nat>, m: int, n: int)
    requires |copies| <= |kids| && n <= m < |ns| && |ns'| == |ns|
    requires forall q | 0 <= q < |ns| && q != m :: ns'[q] == ns[q]
    requires Closed(ns, n) && Arena(ns)
    requires forall r | 0 <= r < |copies| :: 0 <= kids[r] < n && m < copies[r] < |ns| && CopyOf(ns, copies[r], kids[r])
    ensures forall r | 0 <= r < |copies| :: CopyOf(ns', copies[r], kids[r])
  {
    forall r | 0 <= r < |copies|
      ensures CopyOf(ns', copies[r], kids[r])
    {
      CopyOfFrame(ns, ns', copies[r], kids[r], m, n);
    }
  }

  /** Java copies each child's parent reference, so when node `i`'s
      children name `i` as their parent, the copies of those children name
      `i` too: they point back into the original tree, not at the copy. */
  lemma {:induction false} CopiedChildrenPointAtOriginal(ns: seq<Node>, j: int, i: int)
    requires 0 <= i < |ns| && 0 <= j < |ns| && i != j && CopyOf(ns, j, i)
    requires forall c | c in ns[i].children :: c < |ns| && ns[c].parent == Some(i)
    ensures forall k | 0 <= k < |ns[j].children| :: ns[ns[j].children[k]].parent == Some(i) != Some(j)
  {
    forall k | 0 <= k < |ns[j].children|
      ensures ns[ns[j].children[k]].parent == Some(i)
    {
      assert ns[i].children[k] in ns[i].children;
    }
  }

  /** Closedness below `n` depends on the nodes below `n` only. */
  lemma {:induction false} ClosedPrefix(ns: seq<Node>, ns': seq<Node>, n: int)
    requires n <= |ns| <= |ns'| && ns'[..|ns|] == ns && Closed(ns, n)
    ensures Closed(ns', n)
  {
    forall q | 0 <= q < n
      ensures ns'[q] == ns[q]
    {
      assert ns'[..|ns|][q] == ns[q];
    }
  }

  /** Tree, with every Node object it reaches held in `nodes`. */
  class Tree {
    var nodes: seq<Node>
    /** Tree.root. */
    var root: nat

    predicate Valid()
      reads this
    {
      root < |nodes| && Arena(nodes)
    }

    /** new Tree(): the root is `new Node()`, whose state holds `new Board()`
        with zero counters, and has no parent and no children. */
    constructor ()
      ensures Valid()
      ensures nodes == [Node(StateOf(InitialView()), None, [])] && root == 0
    {
      InitialViewValid();
      nodes := [Node(StateOf(InitialView()), None, [])];
      root := 0;
    }

    /** new Tree(new Node(s)): a tree over a fresh node holding `s`. */
    constructor WithRoot(s: State)
      requires ViewValid(s.board)
      ensures Valid()
      ensures nodes == [Node(s, None, [])] && root == 0
    {
      nodes := [Node(s, None, [])];
      root := 0;
    }

    /** Tree.setRoot: only the root changes. */
    method SetRoot(n: nat)
      requires Valid() && n < |nodes|
      modifies this`root
      ensures Valid() && root == n
    {
      root := n;
    }

    /** new Node(state): a node with a copy of the state, equal counters
        included, and no parent and no children; nothing else changes. */
    method AddNode(s: State) returns (j: nat)
      requires Valid() && ViewValid(s.board)
      modifies this`nodes
      ensures Valid()
      ensures j == old(|nodes|) && nodes == old(nodes) + [Node(s, None, [])]
    {
      ArenaAppend(nodes, Node(s, None, []));
      j := |nodes|;
      nodes := nodes + [Node(s, None, [])];
    }

    /** Node.setParent on node `j`; the parent comes before it. */
    method SetParent(j: nat, p: nat)
      requires Valid() && p < j < |nodes|
      modifies this`nodes
      ensures Valid()
      ensures nodes == old(nodes)[j := old(nodes[j]).(parent := Some(p))]
    {
      assert NodeOk(nodes, j);
      ArenaUpdate(nodes, j, nodes[j].(parent := Some(p)));
      nodes := nodes[j := nodes[j].(parent := Some(p))];
    }

    /** Node.setState on node `i`. */
    method SetState(i: nat, s: State)
      requires Valid() && i < |nodes| && ViewValid(s.board)
      modifies this`nodes
      ensures Valid()
      ensures nodes == old(nodes)[i := old(nodes[i]).(state := s)]
    {
      assert NodeOk(nodes, i);
      ArenaUpdate(nodes, i, nodes[i].(state := s));
      nodes := nodes[i := nodes[i].(state := s)];
    }

    /** Tree.addChild(parent, child): `c` joins the end of `p`'s child list;
        no state, parent link, root or other node changes. */
    method AddChild(p: nat, c: nat)
      requires Valid() && p < c < |nodes|
      modifies this`nodes
      ensures Valid()
      ensures nodes == old(nodes)[p := old(nodes[p]).(children := old(nodes[p].children) + [c])]
    {
      var n := nodes[p].(children := nodes[p].children + [c]);
      assert NodeOk(nodes, p);
      ArenaUpdate(nodes, p, n);
      nodes := nodes[p := n];
    }

    /** `getChildArray().clear()` on node `i`: it keeps its state and
        parent and loses its children, which stay in the arena. */
    method ClearChildren(i: nat)
      requires Valid() && i < |nodes|
      modifies this`nodes
      ensures Valid()
      ensures nodes == old(nodes)[i := old(nodes[i]).(children := [])]
    {
      assert NodeOk(nodes, i);
      ArenaUpdate(nodes, i, nodes[i].(children := []));
      nodes := nodes[i := nodes[i].(children := [])];
    }

    /** new Node(node): a copy of the subtree at `i`, appended to the arena;
        the original nodes stay as they are. */
    method CopyNode(i: nat) returns (j: nat)
      requires Valid() && i < |nodes|
      modifies this`nodes
      ensures Valid()
      ensures old(|nodes|) <= j < |nodes| && nodes[..old(|nodes|)] == old(nodes)
      ensures CopyOf(nodes, j, i)
    {
      forall q | 0 <= q < |nodes|
        ensures forall k | 0 <= k < |nodes[q].children| :: nodes[q].children[k] < |nodes|
      {
        assert NodeOk(nodes, q);
      }
      j := CopyBelow(i, |nodes|);
    }

    /** The recursion of the copy constructor; `n` is the size of the arena
        before the copy began, so the originals are the nodes below `n`. */
    method CopyBelow(i: nat, ghost n: nat) returns (j: nat)
      requires Valid() && i < n <= |nodes|
      requires Closed(nodes, n)
      modifies this`nodes
      ensures Valid()
      ensures j == old(|nodes|) && |nodes| > j
      ensures nodes[..old(|nodes|)] == old(nodes)
      ensures CopyOf(nodes, j, i)
      decreases n - i, 1
    {
      j := |nodes|;
      var original := nodes[i];
      assert NodeOk(nodes, i);
      ArenaAppend(nodes, Node(original.state, original.parent, []));
      nodes := nodes + [Node(original.state, original.parent, [])];
      ClosedPrefix(old(nodes), nodes, n);
      var copies := CopyChildren(i, j, n);
      ghost var before := nodes;
      var copy := Node(original.state, original.parent, copies);
      ArenaUpdate(nodes, j, copy);
      nodes := nodes[j := copy];
      CopiesFrame(before, nodes, copies, original.children, j, n);
    }

    /** The loop of the copy constructor over the children of node `i`,
        whose copy sits at `j`: each child's subtree is copied in order. */
    method CopyChildren(i: nat, j: nat, ghost n: nat) returns (copies: seq<nat>)
      requires Valid() && i < n <= j < |nodes| && Closed(nodes, n)
      modifies this`nodes
      ensures |nodes| >= old(|nodes|) && nodes[..old(|nodes|)] == old(nodes)
      ensures Valid() && Closed(nodes, n)
      ensures |copies| == |nodes[i].children|
      ensures forall m | 0 <= m < |copies| ::
        && i < nodes[i].children[m] < n
        && j < copies[m] < |nodes|
        && CopyOf(nodes, copies[m], nodes[i].children[m])
      decreases n - i, 0
    {
      var kids := nodes[i].children;
      assert NodeOk(nodes, i);
      assert forall m | 0 <= m < |kids| :: i < kids[m] < n;
      copies := [];
      for k := 0 to |kids|
        invariant Valid() && j < |nodes| && Closed(nodes, n)
        invariant |nodes| >= old(|nodes|) && nodes[..old(|nodes|)] == old(nodes)
        invariant |copies| == k
        invariant forall m | 0 <= m < k :: j < copies[m] < |nodes| && CopyOf(nodes, copies[m], kids[m])
      {
        ghost var before := nodes;
        var c := CopyBelow(kids[k], n);
        ClosedPrefix(before, nodes, n);
        CopiesExtend(before, nodes, copies, kids);
        assert nodes[..old(|nodes|)] == before[..|before|][..old(|nodes|)];
        copies := copies + [c];
      }
      assert nodes[i] == old(nodes)[i];
    }
  }
}
