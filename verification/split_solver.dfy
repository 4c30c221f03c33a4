/** The split solver: it splits the bodies into islands, groups of bodies
    joined through equations, and hands each island's equations to a
    subsolver on their own, largest id first.

    Node i of the graph is body i of the world (the source finds a body's
    node with `indexOf`, which for a body in the world is its index). The
    `visited` flags of the nodes are kept as one sequence `vis`. What the
    subsolver does with an island is `GsSolver.Solve`; here each call is
    recorded with the subsolver as the call finds it and the island it is
    handed. */
module SplitSolver {
  import opened Wrappers
  import JsNumbers
  import Body
  import Equation
  import Solver
  import GsSolver

  datatype SplitSolver = SplitSolver(iterations: nat, tolerance: real, equations: seq<Equation.Equation>)

  /** `init`: 10 iterations and tolerance 1e-7 for the subsolver, no
      equations. */
  function Init(): (s: SplitSolver)
    ensures s.iterations == 10 && s.tolerance == 0.0000001 && s.equations == []
  {
    SplitSolver(10, 0.0000001, [])
  }

  predicate Distinct<T(==)>(s: seq<T>)
  {
    forall a, b :: 0 <= a < b < |s| ==> s[a] != s[b]
  }

  // The graph.

  /** A node: the nodes of the bodies its body shares an equation with
      (once per equation), and those equations. */
  datatype Node = Node(children: seq<nat>, eqs: seq<Equation.Equation>)

  /** Every child is a node of the graph. */
  predicate Linked(nodes: seq<Node>)
  {
    forall i, k :: 0 <= i < |nodes| && 0 <= k < |nodes[i].children| ==> nodes[i].children[k] < |nodes|
  }

  /** Some equation of the list acts between bodies i and c. */
  predicate Joins(equations: seq<Equation.Equation>, i: nat, c: nat)
  {
    exists e :: e in equations && ((e.bi == i && e.bj == c) || (e.bj == i && e.bi == c))
  }

  /** Every equation acts between bodies of the world. */
  predicate Within(equations: seq<Equation.Equation>, n: nat)
  {
    forall k :: 0 <= k < |equations| ==> equations[k].bi < n && equations[k].bj < n
  }

  /** The edge of one equation: each of its two nodes gets the other as a
      child and the equation on its list. */
  function Link(nodes: seq<Node>, eq: Equation.Equation): (r: seq<Node>)
    requires eq.bi < |nodes| && eq.bj < |nodes|
    ensures |r| == |nodes|
    ensures forall i, c :: 0 <= i < |nodes| ==>
      (c in r[i].children <==> c in nodes[i].children || (i == eq.bi && c == eq.bj) || (i == eq.bj && c == eq.bi))
    ensures forall i, e :: 0 <= i < |nodes| ==>
      (e in r[i].eqs <==> e in nodes[i].eqs || (e == eq && (i == eq.bi || i == eq.bj)))
  {
    var ni := nodes[eq.bi];
    var first := nodes[eq.bi := Node(ni.children + [eq.bj], ni.eqs + [eq])];
    var nj := first[eq.bj];
    first[eq.bj := Node(nj.children + [eq.bi], nj.eqs + [eq])]
  }

  /** n nodes with no children and no equations. */
  function Unlinked(n: nat): (r: seq<Node>)
    ensures |r| == n && forall i :: 0 <= i < n ==> r[i] == Node([], [])
  {
    if n == 0 then [] else Unlinked(n - 1) + [Node([], [])]
  }

  /** The nodes of `solve` for n bodies, after every equation has added
      its edge (see `GraphEdges` for what the nodes hold). */
  function Graph(n: nat, equations: seq<Equation.Equation>): (nodes: seq<Node>)
    requires Within(equations, n)
    ensures |nodes| == n && Linked(nodes)
  {
    if |equations| == 0 then Unlinked(n)
    else
      var nodes := Link(Graph(n, equations[..|equations| - 1]), equations[|equations| - 1]);
      LinkKeepsLinked(Graph(n, equations[..|equations| - 1]), equations[|equations| - 1]);
      nodes
  }

  lemma LinkKeepsLinked(nodes: seq<Node>, eq: Equation.Equation)
    requires eq.bi < |nodes| && eq.bj < |nodes| && Linked(nodes)
    ensures Linked(Link(nodes, eq))
  {
    var r := Link(nodes, eq);
    forall i, k | 0 <= i < |r| && 0 <= k < |r[i].children|
      ensures r[i].children[k] < |r|
    {
      assert r[i].children[k] in r[i].children;
    }
  }

  /** A node's children are exactly the bodies an equation joins its body
      to, and its equations exactly those acting on its body. */
  lemma GraphEdges(n: nat, equations: seq<Equation.Equation>)
    requires Within(equations, n)
    ensures forall i, c :: 0 <= i < n ==> (c in Graph(n, equations)[i].children <==> Joins(equations, i, c))
    ensures forall i, e :: 0 <= i < n ==> (e in Graph(n, equations)[i].eqs <==> e in equations && (e.bi == i || e.bj == i))
  {
    GraphChildren(n, equations);
    GraphEquations(n, equations);
  }

  lemma {:induction false} GraphChildren(n: nat, equations: seq<Equation.Equation>)
    requires Within(equations, n)
    ensures forall i, c :: 0 <= i < n ==> (c in Graph(n, equations)[i].children <==> Joins(equations, i, c))
  {
    if |equations| > 0 {
      var before := equations[..|equations| - 1];
      GraphChildren(n, before);
      forall i, c | 0 <= i < n
        ensures c in Graph(n, equations)[i].children <==> Joins(equations, i, c)
      {
        JoinsLast(equations, i, c);
      }
    }
  }

  lemma {:induction false} GraphEquations(n: nat, equations: seq<Equation.Equation>)
    requires Within(equations, n)
    ensures forall i, e :: 0 <= i < n ==> (e in Graph(n, equations)[i].eqs <==> e in equations && (e.bi == i || e.bj == i))
  {
    if |equations| > 0 {
      var last := equations[|equations| - 1];
      var before := equations[..|equations| - 1];
      GraphEquations(n, before);
      assert equations == before + [last];
      assert forall e :: e in equations <==> e in before || e == last;
    }
  }

  /** The pairs joined by a list of equations are those joined by all but
      its last, and the pair of the last. */
  lemma JoinsLast(equations: seq<Equation.Equation>, i: nat, c: nat)
    requires |equations| > 0
    ensures var last := equations[|equations| - 1];
      Joins(equations, i, c) <==>
      Joins(equations[..|equations| - 1], i, c) || (i == last.bi && c == last.bj) || (i == last.bj && c == last.bi)
  {
    var last := equations[|equations| - 1];
    var before := equations[..|equations| - 1];
    assert equations == before + [last];
    if Joins(equations, i, c) {
      var e :| e in equations && ((e.bi == i && e.bj == c) || (e.bj == i && e.bi == c));
      if e != last {
        assert e in before;
      }
    }
    if Joins(before, i, c) {
      var e :| e in before && ((e.bi == i && e.bj == c) || (e.bj == i && e.bi == c));
      assert e in equations;
    }
    if (i == last.bi && c == last.bj) || (i == last.bj && c == last.bi) {
      assert last in equations;
    }
  }

  /** The edges go both ways. */
  lemma GraphSymmetric(n: nat, equations: seq<Equation.Equation>, i: nat, c: nat)
    requires Within(equations, n)
    requires i < n && c < n
    ensures c in Graph(n, equations)[i].children <==> i in Graph(n, equations)[c].children
  {
    GraphEdges(n, equations);
  }

  // Picking nodes.

  /** The type test of `getUnvisitedNode`: the body's type has no bit in
      common with `mask`. */
  predicate PassesTypeTest(t: int, mask: int)
  {
    JsNumbers.And(t, mask) == 0
  }

  /** The type test of every body. */
  function TypeTest(types: seq<int>, mask: int): (r: seq<bool>)
    ensures |r| == |types| && forall i :: 0 <= i < |types| ==> (r[i] <==> PassesTypeTest(types[i], mask))
  {
    seq(|types|, i requires 0 <= i < |types| => PassesTypeTest(types[i], mask))
  }

  /** The node may be picked: not yet visited, and its body passes the
      type test. */
  predicate Open(i: nat, vis: seq<bool>, passes: seq<bool>)
    requires i < |vis| && |passes| == |vis|
  {
    !vis[i] && passes[i]
  }

  /** The position in `list` of the first node that may be picked, if
      any. */
  function Find(list: seq<nat>, vis: seq<bool>, passes: seq<bool>): (r: Option<nat>)
    requires |passes| == |vis| && forall k :: 0 <= k < |list| ==> list[k] < |vis|
    ensures r.Some? ==>
      r.value < |list| && Open(list[r.value], vis, passes) && forall k :: 0 <= k < r.value ==> !Open(list[k], vis, passes)
    ensures r.None? ==> forall k :: 0 <= k < |list| ==> !Open(list[k], vis, passes)
  {
    if |list| == 0 then None
    else if Open(list[0], vis, passes) then Some(0)
    else
      var rest := Find(list[1..], vis, passes);
      if rest.Some? then Some(rest.value + 1) else None
  }

  /** The mask `getUnvisitedNode` uses as written: it reads
      `SplitSolver.STATIC`, a property the class does not have (there is
      only an instance getter), and `&` turns the undefined value into
      0. */
  const UndefinedMask: int := 0

  /** `getUnvisitedNode` as written: the type test never fails, so static
      bodies are picked like any other. */
  function GetUnvisitedNodeAsWritten(list: seq<nat>, vis: seq<bool>, types: seq<int>): (r: Option<nat>)
    requires |types| == |vis| && forall k :: 0 <= k < |list| ==> list[k] < |vis|
    ensures r.Some? ==> r.value < |list| && !vis[list[r.value]] && forall k :: 0 <= k < r.value ==> vis[list[k]]
    ensures r.None? ==> forall k :: 0 <= k < |list| ==> vis[list[k]]
  {
    UndefinedMaskPassesAll(types);
    Find(list, vis, TypeTest(types, UndefinedMask))
  }

  lemma UndefinedMaskPassesAll(types: seq<int>)
    ensures forall i :: 0 <= i < |types| ==> TypeTest(types, UndefinedMask)[i]
  {
    forall i | 0 <= i < |types|
      ensures PassesTypeTest(types[i], UndefinedMask)
    {
      AndWithZero(types[i]);
    }
  }

  /** `getUnvisitedNode` as intended: the first unvisited node whose body
      is not static. */
  function GetUnvisitedNode(list: seq<nat>, vis: seq<bool>, types: seq<int>): (r: Option<nat>)
    requires |types| == |vis| && forall k :: 0 <= k < |list| ==> list[k] < |vis|
    ensures r == Find(list, vis, TypeTest(types, Body.STATIC))
  {
    Find(list, vis, TypeTest(types, Body.STATIC))
  }

  /** For the three body types, the intended search returns the first
      node that is neither visited nor static. */
  lemma GetUnvisitedNodeSkipsStatic(list: seq<nat>, vis: seq<bool>, types: seq<int>)
    requires |types| == |vis| && forall k :: 0 <= k < |list| ==> list[k] < |vis|
    requires forall i :: 0 <= i < |types| ==> types[i] in {Body.DYNAMIC, Body.STATIC, Body.KINEMATIC}
    ensures var r := GetUnvisitedNode(list, vis, types);
      (r.Some? ==>
        r.value < |list| && !vis[list[r.value]] && types[list[r.value]] != Body.STATIC &&
        forall k :: 0 <= k < r.value ==> vis[list[k]] || types[list[k]] == Body.STATIC) &&
      (r.None? ==> forall k :: 0 <= k < |list| ==> vis[list[k]] || types[list[k]] == Body.STATIC)
  {
    var passes := TypeTest(types, Body.STATIC);
    PassesIffNotStatic(types);
    var r := Find(list, vis, passes);
    assert forall k :: 0 <= k < |list| ==> (Open(list[k], vis, passes) <==> !vis[list[k]] && types[list[k]] != Body.STATIC);
  }

  /** For the three body types, the intended test passes exactly the
      bodies that are not static. */
  lemma PassesIffNotStatic(types: seq<int>)
    requires forall i :: 0 <= i < |types| ==> types[i] in {Body.DYNAMIC, Body.STATIC, Body.KINEMATIC}
    ensures forall i :: 0 <= i < |types| ==> (TypeTest(types, Body.STATIC)[i] <==> types[i] != Body.STATIC)
  {
    Body.StaticBit();
  }

  /** A single unvisited static body: as written it is picked as the root
      of an island; as intended there is nothing to pick. */
  lemma StaticBodyPickedAsWritten()
    ensures GetUnvisitedNodeAsWritten([0], [false], [Body.STATIC]) == Some(0)
    ensures GetUnvisitedNode([0], [false], [Body.STATIC]) == None
  {
    Body.StaticBit();
  }

  lemma AndWithZero(t: int)
    ensures JsNumbers.And(t, 0) == 0
  {
    JsNumbers.Pow2Of32();
    JsNumbers.AndZero(JsNumbers.Bits(t), 32);
  }

  // Visiting.

  /** The bodies of an island in visiting order, and its equations. */
  datatype Island = Island(bodies: seq<nat>, eqs: seq<Equation.Equation>)

  /** The equations of `added` not yet on the list are appended in
      order. */
  function AddNew(eqs: seq<Equation.Equation>, added: seq<Equation.Equation>): (r: seq<Equation.Equation>)
    ensures |eqs| <= |r| && r[..|eqs|] == eqs
    ensures Distinct(eqs) ==> Distinct(r)
    ensures forall e :: e in r <==> e in eqs || e in added
    decreases |added|
  {
    if |added| == 0 then eqs
    else
      assert forall e :: e in added <==> e == added[0] || e in added[1..] by {
        assert added == [added[0]] + added[1..];
      }
      AddNew(if added[0] in eqs then eqs else eqs + [added[0]], added[1..])
  }

  /** `visitFunc`: the node's body joins the island, and so does each of
      its equations that is not already there. */
  function Visit(nodes: seq<Node>, i: nat, isl: Island): (r: Island)
    requires i < |nodes|
    ensures r.bodies == isl.bodies + [i]
    ensures |isl.eqs| <= |r.eqs| && r.eqs[..|isl.eqs|] == isl.eqs
    ensures Distinct(isl.eqs) ==> Distinct(r.eqs)
    ensures forall e :: e in r.eqs <==> e in isl.eqs || e in nodes[i].eqs
  {
    Island(isl.bodies + [i], AddNew(isl.eqs, nodes[i].eqs))
  }

  // The search.

  /** The number of unvisited nodes. */
  function Unvisited(vis: seq<bool>): (r: nat)
    ensures r <= |vis|
  {
    if |vis| == 0 then 0 else Unvisited(vis[..|vis| - 1]) + (if vis[|vis| - 1] then 0 else 1)
  }

  /** Marking an unvisited node leaves one fewer. */
  lemma {:induction false} MarkCounts(vis: seq<bool>, c: nat)
    requires c < |vis| && !vis[c]
    ensures Unvisited(vis[c := true]) == Unvisited(vis) - 1
  {
    var n := |vis|;
    if c == n - 1 {
      assert vis[c := true][..n - 1] == vis[..n - 1];
    } else {
      assert vis[c := true][..n - 1] == vis[..n - 1][c := true];
      MarkCounts(vis[..n - 1], c);
    }
  }

  /** The island's bodies were unvisited before, pass the type test, and
      are visited now; no other node changed; each appears once. */
  predicate Members(bds: seq<nat>, vis0: seq<bool>, vis: seq<bool>, passes: seq<bool>)
  {
    |vis0| == |vis| == |passes| &&
    (forall i :: 0 <= i < |vis| ==> (vis[i] <==> vis0[i] || i in bds)) &&
    (forall m :: 0 <= m < |bds| ==> bds[m] < |vis| && !vis0[bds[m]] && passes[bds[m]]) &&
    Distinct(bds)
  }

  /** Body m of the list is a child of one before it. */
  predicate ChildOfEarlier(bds: seq<nat>, nodes: seq<Node>, m: nat)
    requires m < |bds|
  {
    exists p :: 0 <= p < m && bds[p] < |nodes| && bds[m] in nodes[bds[p]].children
  }

  /** Each body after the first is a child of one before it. */
  predicate Spanned(bds: seq<nat>, nodes: seq<Node>)
  {
    forall m :: 0 < m < |bds| ==> ChildOfEarlier(bds, nodes, m)
  }

  /** No child of node i may still be picked. */
  predicate Exhausted(nodes: seq<Node>, i: nat, vis: seq<bool>, passes: seq<bool>)
    requires Linked(nodes) && i < |nodes| && |vis| == |nodes| && |passes| == |nodes|
  {
    forall k :: 0 <= k < |nodes[i].children| ==> !Open(nodes[i].children[k], vis, passes)
  }

  /** The island's equations: each once, and exactly those of its
      nodes. */
  ghost predicate Collects(isl: Island, nodes: seq<Node>)
  {
    Distinct(isl.eqs) &&
    forall e :: e in isl.eqs <==>
      exists m :: 0 <= m < |isl.bodies| && isl.bodies[m] < |nodes| && e in nodes[isl.bodies[m]].eqs
  }

  lemma VisitCollects(nodes: seq<Node>, i: nat, isl: Island)
    requires i < |nodes| && Collects(isl, nodes)
    ensures Collects(Visit(nodes, i, isl), nodes)
  {
    var r := Visit(nodes, i, isl);
    forall e
      ensures e in r.eqs <==> exists m :: 0 <= m < |r.bodies| && r.bodies[m] < |nodes| && e in nodes[r.bodies[m]].eqs
    {
      if e in nodes[i].eqs {
        assert r.bodies[|isl.bodies|] == i;
      }
      if e in isl.eqs {
        var m :| 0 <= m < |isl.bodies| && isl.bodies[m] < |nodes| && e in nodes[isl.bodies[m]].eqs;
        assert r.bodies[m] == isl.bodies[m];
      }
      if exists m :: 0 <= m < |r.bodies| && r.bodies[m] < |nodes| && e in nodes[r.bodies[m]].eqs {
        var m :| 0 <= m < |r.bodies| && r.bodies[m] < |nodes| && e in nodes[r.bodies[m]].eqs;
        if m < |isl.bodies| {
          assert r.bodies[m] == isl.bodies[m];
        }
      }
    }
  }

  /** Visiting a node that may be picked keeps the island's bodies
      those that changed. */
  lemma VisitMembers(bds: seq<nat>, vis0: seq<bool>, vis: seq<bool>, passes: seq<bool>, child: nat)
    requires Members(bds, vis0, vis, passes) && child < |vis| && !vis[child] && passes[child]
    ensures Members(bds + [child], vis0, vis[child := true], passes)
  {
    assert child !in bds;
    var r := bds + [child];
    forall i | 0 <= i < |vis|
      ensures vis[child := true][i] <==> vis0[i] || i in r
    {
      assert i in r <==> i in bds || i == child;
    }
  }

  /** Visiting a child of an island node keeps the island spanned. */
  lemma VisitSpanned(bds: seq<nat>, nodes: seq<Node>, p: nat, child: nat)
    requires Spanned(bds, nodes) && p < |bds| && bds[p] < |nodes| && child in nodes[bds[p]].children
    ensures Spanned(bds + [child], nodes)
  {
    var r := bds + [child];
    forall m | 0 < m < |r|
      ensures ChildOfEarlier(r, nodes, m)
    {
      if m == |bds| {
        assert r[p] == bds[p] && r[m] == child;
      } else {
        assert ChildOfEarlier(bds, nodes, m);
        var q :| 0 <= q < m && bds[q] < |nodes| && bds[m] in nodes[bds[q]].children;
        assert r[q] == bds[q] && r[m] == bds[m];
      }
    }
  }

  /** The pending nodes are island nodes, each pending once. */
  predicate Pending(stack: seq<nat>, bds: seq<nat>)
  {
    (forall k :: 0 <= k < |stack| ==> stack[k] in bds) && Distinct(stack)
  }

  /** Every island node neither pending nor in `except` is exhausted. */
  predicate Finished(nodes: seq<Node>, bds: seq<nat>, stack: seq<nat>, vis: seq<bool>, passes: seq<bool>, except: set<nat>)
    requires Linked(nodes) && |vis| == |nodes| && |passes| == |nodes|
  {
    forall m :: 0 <= m < |bds| && bds[m] < |nodes| && bds[m] !in stack && bds[m] !in except ==>
      Exhausted(nodes, bds[m], vis, passes)
  }

  /** Taking the last pending node out: it is an island node, no longer
      pending, and the only one that may not be exhausted. */
  lemma PopKeeps(nodes: seq<Node>, bds: seq<nat>, stack: seq<nat>, vis: seq<bool>, passes: seq<bool>)
    requires Linked(nodes) && |vis| == |nodes| && |passes| == |nodes| && |stack| > 0
    requires Pending(stack, bds) && Finished(nodes, bds, stack, vis, passes, {})
    ensures var node := stack[|stack| - 1];
      node in bds && node !in stack[..|stack| - 1] &&
      Pending(stack[..|stack| - 1], bds) && Finished(nodes, bds, stack[..|stack| - 1], vis, passes, {node})
  {
    var rest := stack[..|stack| - 1];
    assert stack == rest + [stack[|stack| - 1]];
    assert forall x :: x in rest ==> x in stack;
  }

  /** Visiting and queueing a node keeps the rest exhausted. */
  lemma PushKeeps(nodes: seq<Node>, bds: seq<nat>, stack: seq<nat>, vis: seq<bool>, passes: seq<bool>, node: nat, child: nat)
    requires Linked(nodes) && |vis| == |nodes| && |passes| == |nodes| && child < |nodes| && child !in bds
    requires Pending(stack, bds) && Finished(nodes, bds, stack, vis, passes, {node})
    ensures Pending(stack + [child], bds + [child])
    ensures Finished(nodes, bds + [child], stack + [child], vis[child := true], passes, {node})
  {
    var bds' := bds + [child];
    var stack' := stack + [child];
    forall m | 0 <= m < |bds'| && bds'[m] < |nodes| && bds'[m] !in stack' && bds'[m] !in {node}
      ensures Exhausted(nodes, bds'[m], vis[child := true], passes)
    {
      assert m < |bds| && bds'[m] == bds[m];
      assert Exhausted(nodes, bds[m], vis, passes);
    }
  }

  /** Once the node taken out has no child left to pick, every island node
      that is not pending is exhausted. */
  lemma CloseNode(nodes: seq<Node>, bds: seq<nat>, stack: seq<nat>, vis: seq<bool>, passes: seq<bool>, node: nat)
    requires Linked(nodes) && |vis| == |nodes| && |passes| == |nodes| && node < |nodes|
    requires Finished(nodes, bds, stack, vis, passes, {node}) && Exhausted(nodes, node, vis, passes)
    ensures Finished(nodes, bds, stack, vis, passes, {})
  {
  }

  /** The inner loop of `bfs`: visits and pushes the children of the node
      just taken out, one at a time, until none is left to pick. */
  method Expand(nodes: seq<Node>, passes: seq<bool>, root: nat, vis0: seq<bool>, node: nat,
                stack0: seq<nat>, visIn: seq<bool>, isl0: Island)
    returns (stack: seq<nat>, vis: seq<bool>, isl: Island)
    requires Linked(nodes) && |passes| == |nodes| && |vis0| == |nodes|
    requires |isl0.bodies| > 0 && isl0.bodies[0] == root
    requires Members(isl0.bodies, vis0, visIn, passes)
    requires Unvisited(visIn) + |isl0.bodies| == Unvisited(vis0)
    requires Spanned(isl0.bodies, nodes) && Collects(isl0, nodes)
    requires Pending(stack0, isl0.bodies)
    requires node in isl0.bodies && node < |nodes|
    requires Finished(nodes, isl0.bodies, stack0, visIn, passes, {node})
    ensures |isl.bodies| > 0 && isl.bodies[0] == root
    ensures Members(isl.bodies, vis0, vis, passes)
    ensures Unvisited(vis) + |isl.bodies| == Unvisited(vis0)
    ensures Spanned(isl.bodies, nodes) && Collects(isl, nodes)
    ensures Pending(stack, isl.bodies)
    ensures Finished(nodes, isl.bodies, stack, vis, passes, {})
    ensures 2 * Unvisited(vis) + |stack| <= 2 * Unvisited(visIn) + |stack0|
  {
    stack, vis, isl := stack0, visIn, isl0;
    while true
      invariant |isl.bodies| > 0 && isl.bodies[0] == root
      invariant Members(isl.bodies, vis0, vis, passes)
      invariant Unvisited(vis) + |isl.bodies| == Unvisited(vis0)
      invariant Spanned(isl.bodies, nodes)
      invariant Collects(isl, nodes)
      invariant Pending(stack, isl.bodies)
      invariant node in isl.bodies
      invariant Finished(nodes, isl.bodies, stack, vis, passes, {node})
      invariant 2 * Unvisited(vis) + |stack| <= 2 * Unvisited(visIn) + |stack0|
      decreases Unvisited(vis)
    {
      var k := Find(nodes[node].children, vis, passes);
      if k.None? {
        CloseNode(nodes, isl.bodies, stack, vis, passes, node);
        return;
      }
      var child := nodes[node].children[k.value];
      MarkCounts(vis, child);
      ghost var p :| 0 <= p < |isl.bodies| && isl.bodies[p] == node;
      assert child in nodes[node].children;
      VisitMembers(isl.bodies, vis0, vis, passes, child);
      VisitSpanned(isl.bodies, nodes, p, child);
      VisitCollects(nodes, child, isl);
      PushKeeps(nodes, isl.bodies, stack, vis, passes, node, child);
      vis := vis[child := true];
      isl := Visit(nodes, child, isl);
      stack := stack + [child];
    }
  }

  /** `bfs`: from the root, marks and visits every node it can reach
      through nodes that may be picked, each exactly once. The pending
      nodes are taken from the end of the list, so the order is depth
      first, whatever the name says. The island it returns is closed: no
      child of its nodes may still be picked. */
  method Bfs(nodes: seq<Node>, passes: seq<bool>, root: nat, vis0: seq<bool>) returns (vis: seq<bool>, isl: Island)
    requires Linked(nodes) && |passes| == |nodes| && |vis0| == |nodes|
    requires root < |nodes| && Open(root, vis0, passes)
    ensures |isl.bodies| > 0 && isl.bodies[0] == root
    ensures Members(isl.bodies, vis0, vis, passes)
    ensures Unvisited(vis) + |isl.bodies| == Unvisited(vis0)
    ensures Spanned(isl.bodies, nodes)
    ensures forall m :: 0 <= m < |isl.bodies| ==> Exhausted(nodes, isl.bodies[m], vis, passes)
    ensures Collects(isl, nodes)
  {
    MarkCounts(vis0, root);
    vis := vis0[root := true];
    VisitCollects(nodes, root, Island([], []));
    isl := Visit(nodes, root, Island([], []));
    var stack := [root];
    while |stack| > 0
      invariant |isl.bodies| > 0 && isl.bodies[0] == root
      invariant Members(isl.bodies, vis0, vis, passes)
      invariant Unvisited(vis) + |isl.bodies| == Unvisited(vis0)
      invariant Spanned(isl.bodies, nodes)
      invariant Collects(isl, nodes)
      invariant Pending(stack, isl.bodies)
      invariant Finished(nodes, isl.bodies, stack, vis, passes, {})
      decreases 2 * Unvisited(vis) + |stack|
    {
      PopKeeps(nodes, isl.bodies, stack, vis, passes);
      var node := stack[|stack| - 1];
      stack, vis, isl := Expand(nodes, passes, root, vis0, node, stack[..|stack| - 1], vis, isl);
    }
    assert forall m :: 0 <= m < |isl.bodies| ==> isl.bodies[m] !in stack;
  }

  // Ordering and handing over.

  /** The order `sortById` gives: the larger `_id` first. */
  predicate ByIdDescending(eqs: seq<Equation.Equation>)
  {
    forall a, b :: 0 <= a < b < |eqs| ==> eqs[a].id >= eqs[b].id
  }

  /** Puts `e` in front of the first equation whose id is not larger. */
  function Insert(e: Equation.Equation, sorted: seq<Equation.Equation>): (r: seq<Equation.Equation>)
    requires ByIdDescending(sorted)
    ensures ByIdDescending(r)
    ensures multiset(r) == multiset(sorted) + multiset{e}
    decreases |sorted|
  {
    if |sorted| == 0 || e.id >= sorted[0].id then
      ConsSorted(e, sorted);
      [e] + sorted
    else
      var rest := Insert(e, sorted[1..]);
      assert multiset(sorted) == multiset{sorted[0]} + multiset(sorted[1..]) by {
        assert sorted == [sorted[0]] + sorted[1..];
      }
      InsertBound(e, sorted[1..], rest, sorted[0].id);
      ConsSorted(sorted[0], rest);
      [sorted[0]] + rest
  }

  /** An equation whose id is not below any of a sorted list's goes in
      front of it. */
  lemma ConsSorted(x: Equation.Equation, rest: seq<Equation.Equation>)
    requires ByIdDescending(rest)
    requires |rest| == 0 || x.id >= rest[0].id
    ensures ByIdDescending([x] + rest)
  {
  }

  /** A bound on the ids of a list and of the inserted equation bounds the
      ids of the result. */
  lemma InsertBound(e: Equation.Equation, sorted: seq<Equation.Equation>, r: seq<Equation.Equation>, top: int)
    requires multiset(r) == multiset(sorted) + multiset{e}
    requires e.id <= top && forall k :: 0 <= k < |sorted| ==> sorted[k].id <= top
    ensures forall k :: 0 <= k < |r| ==> r[k].id <= top
  {
    forall k | 0 <= k < |r|
      ensures r[k].id <= top
    {
      assert r[k] in multiset(r);
      if r[k] != e {
        assert r[k] in multiset(sorted);
        var j :| 0 <= j < |sorted| && sorted[j] == r[k];
      }
    }
  }

  /** `eqs.sort(sortById)`: the same equations, larger ids first (equal
      ids keep their order, as a stable sort does). */
  function SortById(eqs: seq<Equation.Equation>): (r: seq<Equation.Equation>)
    ensures ByIdDescending(r)
    ensures multiset(r) == multiset(eqs)
    ensures forall e :: e in r <==> e in eqs
  {
    if |eqs| == 0 then []
    else
      assert eqs == [eqs[0]] + eqs[1..];
      var r := Insert(eqs[0], SortById(eqs[1..]));
      assert forall e :: e in r <==> e in multiset(r);
      assert forall e :: e in eqs <==> e in multiset(eqs);
      r
  }

  /** The equations a solver's `addEquation` keeps, in order. */
  function Admitted(eqs: seq<Equation.Equation>, bodies: seq<Body.Body>): (r: seq<Equation.Equation>)
    requires GsSolver.AllValid(eqs, bodies)
    ensures forall e :: e in r <==> e in eqs && Equation.Valid(e, bodies) && Solver.Admits(e, bodies)
    ensures ByIdDescending(eqs) ==> ByIdDescending(r)
  {
    if |eqs| == 0 then []
    else
      assert forall e :: e in eqs <==> e == eqs[0] || e in eqs[1..] by {
        assert eqs == [eqs[0]] + eqs[1..];
      }
      var rest := Admitted(eqs[1..], bodies);
      assert ByIdDescending(eqs) ==> forall x :: x in rest ==> eqs[0].id >= x.id;
      if Solver.Admits(eqs[0], bodies) then [eqs[0]] + rest else rest
  }

  /** The loop of `addEquation` calls: the admitted equations are
      appended, in order. */
  function AddAll(sub: GsSolver.GsSolver, eqs: seq<Equation.Equation>, bodies: seq<Body.Body>): (r: GsSolver.GsSolver)
    requires GsSolver.AllValid(eqs, bodies)
    ensures r == sub.(equations := sub.equations + Admitted(eqs, bodies))
    decreases |eqs|
  {
    if |eqs| == 0 then sub
    else
      var added := Solver.AddEquation(Solver.Solver(sub.equations), eqs[0], bodies);
      var head := if Solver.Admits(eqs[0], bodies) then [eqs[0]] else [];
      AdmittedCons(eqs, bodies);
      AppendRegroup(sub.equations, head, Admitted(eqs[1..], bodies));
      AddAll(sub.(equations := added.equations), eqs[1..], bodies)
  }

  /** The admitted equations of a list are its first one, when admitted,
      followed by the admitted ones of the rest. */
  lemma AdmittedCons(eqs: seq<Equation.Equation>, bodies: seq<Body.Body>)
    requires |eqs| > 0 && GsSolver.AllValid(eqs, bodies)
    ensures GsSolver.AllValid(eqs[1..], bodies)
    ensures Admitted(eqs, bodies) == (if Solver.Admits(eqs[0], bodies) then [eqs[0]] else []) + Admitted(eqs[1..], bodies)
  {
    assert forall k :: 0 <= k < |eqs[1..]| ==> eqs[1..][k] == eqs[k + 1];
  }

  lemma AppendRegroup(a: seq<Equation.Equation>, b: seq<Equation.Equation>, c: seq<Equation.Equation>)
    ensures a + (b + c) == (a + b) + c
  {
  }

  // The islands.

  /** What one island's `subsolver.solve` call is handed: the subsolver
      as the call finds it, and the island. */
  datatype Call = Call(sub: GsSolver.GsSolver, island: Island)

  /** Body i is in one of the islands. */
  ghost predicate InSome(calls: seq<Call>, i: nat)
  {
    exists a :: 0 <= a < |calls| && i in calls[a].island.bodies
  }

  /** No two islands share a body. */
  ghost predicate Disjoint(calls: seq<Call>)
  {
    forall a, b, i :: 0 <= a < b < |calls| && i in calls[a].island.bodies ==> i !in calls[b].island.bodies
  }

  /** Every body of the island passes the type test. */
  ghost predicate AllPass(isl: Island, passes: seq<bool>)
  {
    forall m :: 0 <= m < |isl.bodies| ==> isl.bodies[m] < |passes| && passes[isl.bodies[m]]
  }

  /** Each body of the island after the first is joined by an equation to
      one before it. */
  ghost predicate Connected(isl: Island, equations: seq<Equation.Equation>)
  {
    forall m :: 0 < m < |isl.bodies| ==> JoinedToEarlier(equations, isl.bodies, m)
  }

  /** Body m of the list is joined by an equation to one before it. */
  predicate JoinedToEarlier(equations: seq<Equation.Equation>, bds: seq<nat>, m: nat)
    requires m < |bds|
  {
    exists p :: 0 <= p < m && Joins(equations, bds[p], bds[m])
  }

  /** A body that passes the type test and is joined to a body of the
      island is in the island. */
  ghost predicate Closed(isl: Island, equations: seq<Equation.Equation>, passes: seq<bool>)
  {
    forall i, c :: i in isl.bodies && 0 <= c < |passes| && passes[c] && Joins(equations, i, c) ==> c in isl.bodies
  }

  /** The island's equations, each once, are exactly those acting on one
      of its bodies. */
  ghost predicate Acting(isl: Island, equations: seq<Equation.Equation>)
  {
    Distinct(isl.eqs) && forall e :: e in isl.eqs <==> e in equations && (e.bi in isl.bodies || e.bj in isl.bodies)
  }

  /** An island of the equations: a nonempty list of distinct bodies that
      pass the type test, connected and closed, with the equations acting
      on them. */
  ghost predicate IslandOf(isl: Island, equations: seq<Equation.Equation>, passes: seq<bool>)
  {
    |isl.bodies| > 0 && Distinct(isl.bodies) && AllPass(isl, passes) &&
    Connected(isl, equations) && Closed(isl, equations, passes) && Acting(isl, equations)
  }

  /** Each body of a search after the first is joined by an equation to
      one before it. */
  lemma SpannedJoins(equations: seq<Equation.Equation>, n: nat, bds: seq<nat>)
    requires Within(equations, n) && Spanned(bds, Graph(n, equations))
    requires forall m :: 0 <= m < |bds| ==> bds[m] < n
    ensures forall m :: 0 < m < |bds| ==> JoinedToEarlier(equations, bds, m)
  {
    GraphEdges(n, equations);
    var nodes := Graph(n, equations);
    forall m | 0 < m < |bds|
      ensures JoinedToEarlier(equations, bds, m)
    {
      assert ChildOfEarlier(bds, nodes, m);
      var p :| 0 <= p < m && bds[p] < |nodes| && bds[m] in nodes[bds[p]].children;
      assert Joins(equations, bds[p], bds[m]);
    }
  }

  /** The equations a search collects are those acting on its bodies. */
  lemma CollectsActing(equations: seq<Equation.Equation>, n: nat, isl: Island)
    requires Within(equations, n) && Collects(isl, Graph(n, equations))
    requires forall m :: 0 <= m < |isl.bodies| ==> isl.bodies[m] < n
    ensures forall e :: e in isl.eqs <==> e in equations && (e.bi in isl.bodies || e.bj in isl.bodies)
  {
    GraphEdges(n, equations);
    var nodes := Graph(n, equations);
    forall e
      ensures e in isl.eqs <==> e in equations && (e.bi in isl.bodies || e.bj in isl.bodies)
    {
      if e in isl.eqs {
        var m :| 0 <= m < |isl.bodies| && isl.bodies[m] < |nodes| && e in nodes[isl.bodies[m]].eqs;
      }
      if e in equations && (e.bi in isl.bodies || e.bj in isl.bodies) {
        var m :| 0 <= m < |isl.bodies| && (isl.bodies[m] == e.bi || isl.bodies[m] == e.bj);
        assert e in nodes[isl.bodies[m]].eqs;
      }
    }
  }

  /** A finished search has visited every body that passes the type
      test and is joined to one of its bodies. */
  lemma SearchReaches(equations: seq<Equation.Equation>, passes: seq<bool>, vis: seq<bool>, bds: seq<nat>)
    requires Within(equations, |passes|) && |vis| == |passes|
    requires forall m :: 0 <= m < |bds| ==> bds[m] < |passes|
    requires forall m :: 0 <= m < |bds| ==> Exhausted(Graph(|passes|, equations), bds[m], vis, passes)
    ensures forall i, c :: i in bds && 0 <= c < |passes| && passes[c] && Joins(equations, i, c) ==> vis[c]
  {
    GraphEdges(|passes|, equations);
    var nodes := Graph(|passes|, equations);
    forall i, c | i in bds && 0 <= c < |passes| && passes[c] && Joins(equations, i, c)
      ensures vis[c]
    {
      var m :| 0 <= m < |bds| && bds[m] == i;
      assert c in nodes[i].children;
      var k :| 0 <= k < |nodes[i].children| && nodes[i].children[k] == c;
      assert !Open(nodes[i].children[k], vis, passes);
    }
  }

  /** No body joined to a body of a new island and passing the type test
      was visited before it: its island, being closed, would hold the new
      island's body too. */
  lemma EarlierIslandsApart(equations: seq<Equation.Equation>, passes: seq<bool>, calls: seq<Call>, vis0: seq<bool>, bds: seq<nat>)
    requires |vis0| == |passes|
    requires forall i :: 0 <= i < |vis0| ==> (vis0[i] <==> InSome(calls, i))
    requires forall a :: 0 <= a < |calls| ==> Closed(calls[a].island, equations, passes)
    requires forall m :: 0 <= m < |bds| ==> bds[m] < |vis0| && !vis0[bds[m]] && passes[bds[m]]
    ensures forall i, c :: i in bds && 0 <= c < |passes| && passes[c] && Joins(equations, i, c) ==> !vis0[c]
  {
    forall i, c | i in bds && 0 <= c < |passes| && passes[c] && Joins(equations, i, c)
      ensures !vis0[c]
    {
      var m :| 0 <= m < |bds| && bds[m] == i;
      if vis0[c] {
        var a :| 0 <= a < |calls| && c in calls[a].island.bodies;
        assert false;
      }
    }
  }

  /** A finished search is closed. */
  lemma SearchClosed(equations: seq<Equation.Equation>, passes: seq<bool>, calls: seq<Call>,
                     vis0: seq<bool>, vis: seq<bool>, bds: seq<nat>)
    requires Within(equations, |passes|) && |vis0| == |passes|
    requires forall i :: 0 <= i < |vis0| ==> (vis0[i] <==> InSome(calls, i))
    requires forall a :: 0 <= a < |calls| ==> Closed(calls[a].island, equations, passes)
    requires Members(bds, vis0, vis, passes)
    requires forall m :: 0 <= m < |bds| ==> Exhausted(Graph(|passes|, equations), bds[m], vis, passes)
    ensures Closed(Island(bds, []), equations, passes)
  {
    SearchReaches(equations, passes, vis, bds);
    EarlierIslandsApart(equations, passes, calls, vis0, bds);
  }

  /** A finished search is an island. */
  lemma SearchIsIsland(equations: seq<Equation.Equation>, passes: seq<bool>, calls: seq<Call>,
                       vis0: seq<bool>, vis: seq<bool>, isl: Island)
    requires Within(equations, |passes|) && |vis0| == |passes|
    requires forall i :: 0 <= i < |vis0| ==> (vis0[i] <==> InSome(calls, i))
    requires forall a :: 0 <= a < |calls| ==> Closed(calls[a].island, equations, passes)
    requires |isl.bodies| > 0 && Members(isl.bodies, vis0, vis, passes)
    requires Spanned(isl.bodies, Graph(|passes|, equations)) && Collects(isl, Graph(|passes|, equations))
    requires forall m :: 0 <= m < |isl.bodies| ==> Exhausted(Graph(|passes|, equations), isl.bodies[m], vis, passes)
    ensures IslandOf(isl, equations, passes)
  {
    SpannedJoins(equations, |passes|, isl.bodies);
    CollectsActing(equations, |passes|, isl);
    SearchClosed(equations, passes, calls, vis0, vis, isl.bodies);
    assert Closed(isl, equations, passes) by {
      assert forall i :: i in isl.bodies <==> i in Island(isl.bodies, []).bodies;
    }
  }

  /** Recording the island: the visited nodes are those of the islands,
      which share no body. */
  lemma AddIsland(calls: seq<Call>, call: Call, vis0: seq<bool>, vis: seq<bool>, passes: seq<bool>)
    requires forall i :: 0 <= i < |vis0| ==> (vis0[i] <==> InSome(calls, i))
    requires Disjoint(calls) && Members(call.island.bodies, vis0, vis, passes)
    ensures forall i :: 0 <= i < |vis| ==> (vis[i] <==> InSome(calls + [call], i))
    ensures Disjoint(calls + [call])
  {
    var all := calls + [call];
    forall i | 0 <= i < |vis|
      ensures vis[i] <==> InSome(all, i)
    {
      if InSome(all, i) {
        var a :| 0 <= a < |all| && i in all[a].island.bodies;
        if a < |calls| {
          assert i in calls[a].island.bodies;
        }
      }
      if InSome(calls, i) {
        var a :| 0 <= a < |calls| && i in calls[a].island.bodies;
        assert i in all[a].island.bodies;
      }
      if i in call.island.bodies {
        assert i in all[|calls|].island.bodies;
      }
    }
    forall a, b, i | 0 <= a < b < |all| && i in all[a].island.bodies
      ensures i !in all[b].island.bodies
    {
      if b == |calls| {
        assert i in calls[a].island.bodies;
        assert InSome(calls, i);
      }
    }
  }

  function Types(bodies: seq<Body.Body>): (r: seq<int>)
    ensures |r| == |bodies| && forall i :: 0 <= i < |bodies| ==> r[i] == bodies[i].bodyType
  {
    seq(|bodies|, i requires 0 <= i < |bodies| => bodies[i].bodyType)
  }

  function Indices(n: nat): (r: seq<nat>)
    ensures |r| == n && forall i :: 0 <= i < n ==> r[i] == i
  {
    if n == 0 then [] else Indices(n - 1) + [n - 1]
  }

  /** Every call is handed an island of the equations. */
  ghost predicate Islands(calls: seq<Call>, equations: seq<Equation.Equation>, passes: seq<bool>)
  {
    forall a :: 0 <= a < |calls| ==> IslandOf(calls[a].island, equations, passes)
  }

  /** The subsolver as `solve(dt, dummyWorld)` finds it: this solver's
      iterations and tolerance, and the island's admitted equations,
      largest id first, after what the subsolver held before (nothing,
      once it has been emptied after the first island). */
  ghost predicate Handed(calls: seq<Call>, s: SplitSolver, sub: GsSolver.GsSolver, bodies: seq<Body.Body>)
  {
    forall a :: 0 <= a < |calls| ==>
      GsSolver.AllValid(SortById(calls[a].island.eqs), bodies) &&
      calls[a].sub == GsSolver.GsSolver(s.iterations, s.tolerance,
        (if a == 0 then sub.equations else []) + Admitted(SortById(calls[a].island.eqs), bodies))
  }

  /** The subsolver between islands. */
  function Between(n: nat, s: SplitSolver, sub: GsSolver.GsSolver): (r: GsSolver.GsSolver)
    ensures r.iterations == s.iterations && r.tolerance == s.tolerance
    ensures r.equations == if n == 0 then sub.equations else []
  {
    if n == 0 then sub.(iterations := s.iterations, tolerance := s.tolerance)
    else GsSolver.GsSolver(s.iterations, s.tolerance, [])
  }

  /** An island's equations act between bodies of the world. */
  lemma IslandEquationsValid(isl: Island, equations: seq<Equation.Equation>, bodies: seq<Body.Body>)
    requires Acting(isl, equations) && GsSolver.AllValid(equations, bodies)
    ensures GsSolver.AllValid(SortById(isl.eqs), bodies)
  {
    var sorted := SortById(isl.eqs);
    forall k | 0 <= k < |sorted|
      ensures Equation.Valid(sorted[k], bodies)
    {
      assert sorted[k] in isl.eqs;
      var j :| 0 <= j < |equations| && equations[j] == sorted[k];
    }
  }

  /** Recording one more island keeps every call handed an island. */
  lemma RecordIsland(calls: seq<Call>, call: Call, equations: seq<Equation.Equation>, passes: seq<bool>)
    requires Islands(calls, equations, passes) && IslandOf(call.island, equations, passes)
    ensures Islands(calls + [call], equations, passes)
  {
    var all := calls + [call];
    forall a | 0 <= a < |all|
      ensures IslandOf(all[a].island, equations, passes)
    {
      if a < |calls| {
        assert all[a] == calls[a];
      }
    }
  }

  /** The subsolver the n-th island is handed. */
  lemma CallHanded(n: nat, eqs: seq<Equation.Equation>, s: SplitSolver, sub: GsSolver.GsSolver, bodies: seq<Body.Body>)
    requires GsSolver.AllValid(eqs, bodies)
    ensures AddAll(Between(n, s, sub), eqs, bodies) ==
      GsSolver.GsSolver(s.iterations, s.tolerance, (if n == 0 then sub.equations else []) + Admitted(eqs, bodies))
  {
  }

  /** Recording the call the subsolver gets for one more island. */
  lemma RecordCall(calls: seq<Call>, isl: Island, s: SplitSolver, sub: GsSolver.GsSolver, bodies: seq<Body.Body>)
    requires Handed(calls, s, sub, bodies) && GsSolver.AllValid(SortById(isl.eqs), bodies)
    ensures Handed(calls + [Call(AddAll(Between(|calls|, s, sub), SortById(isl.eqs), bodies), isl)], s, sub, bodies)
  {
    var call := Call(AddAll(Between(|calls|, s, sub), SortById(isl.eqs), bodies), isl);
    CallHanded(|calls|, SortById(isl.eqs), s, sub, bodies);
    var all := calls + [call];
    forall a | 0 <= a < |all|
      ensures GsSolver.AllValid(SortById(all[a].island.eqs), bodies) &&
        all[a].sub == GsSolver.GsSolver(s.iterations, s.tolerance,
          (if a == 0 then sub.equations else []) + Admitted(SortById(all[a].island.eqs), bodies))
    {
      if a < |calls| {
        assert all[a] == calls[a];
      } else {
        assert all[a] == call;
      }
    }
  }

  /** `solve`: while some body that is not static is unvisited, the first
      of them roots a new island; the island's equations, largest id
      first, are added to the subsolver, which is called and then emptied.
      Returns the number of islands. The islands share no body, and
      every body that is not static is in one of them (for the three body
      types). */
  method Solve(s: SplitSolver, sub: GsSolver.GsSolver, bodies: seq<Body.Body>)
    returns (n: nat, calls: seq<Call>, after: GsSolver.GsSolver)
    requires GsSolver.AllValid(s.equations, bodies)
    ensures n == |calls|
    ensures Islands(calls, s.equations, TypeTest(Types(bodies), Body.STATIC))
    ensures Disjoint(calls)
    ensures forall i :: 0 <= i < |bodies| ==> (PassesTypeTest(bodies[i].bodyType, Body.STATIC) <==> InSome(calls, i))
    ensures forall i :: 0 <= i < |bodies| && bodies[i].bodyType in {Body.DYNAMIC, Body.STATIC, Body.KINEMATIC} ==>
      (InSome(calls, i) <==> bodies[i].bodyType != Body.STATIC)
    ensures Handed(calls, s, sub, bodies)
    ensures after == Between(n, s, sub)
  {
    var types := Types(bodies);
    var nodes := Graph(|bodies|, s.equations);
    var passes := TypeTest(types, Body.STATIC);
    var all := Indices(|bodies|);
    var vis := seq(|bodies|, _ => false);
    var cur := Between(0, s, sub);
    n, calls := 0, [];
    while true
      invariant |vis| == |bodies| && n == |calls|
      invariant forall i :: 0 <= i < |vis| ==> (vis[i] <==> InSome(calls, i))
      invariant Disjoint(calls)
      invariant Islands(calls, s.equations, passes)
      invariant Handed(calls, s, sub, bodies)
      invariant cur == Between(n, s, sub)
      decreases Unvisited(vis)
    {
      var r := GetUnvisitedNode(all, vis, types);
      if r.None? {
        break;
      }
      var root := all[r.value];
      var vis', isl := Bfs(nodes, passes, root, vis);
      SearchIsIsland(s.equations, passes, calls, vis, vis', isl);
      IslandEquationsValid(isl, s.equations, bodies);
      var call := Call(AddAll(cur, SortById(isl.eqs), bodies), isl);
      AddIsland(calls, call, vis, vis', passes);
      RecordIsland(calls, call, s.equations, passes);
      RecordCall(calls, isl, s, sub, bodies);
      calls := calls + [call];
      cur := cur.(equations := Solver.RemoveAllEquations(Solver.Solver(call.sub.equations)).equations);
      n := n + 1;
      vis := vis';
    }
    after := cur;
    Covering(bodies, passes, vis, calls, s.equations);
  }

  /** When the search over all nodes finds none, the islands hold exactly
      the bodies that are not static. */
  lemma Covering(bodies: seq<Body.Body>, passes: seq<bool>, vis: seq<bool>, calls: seq<Call>, equations: seq<Equation.Equation>)
    requires passes == TypeTest(Types(bodies), Body.STATIC) && |vis| == |bodies|
    requires Find(Indices(|vis|), vis, passes).None?
    requires forall i :: 0 <= i < |vis| ==> (vis[i] <==> InSome(calls, i))
    requires Islands(calls, equations, passes)
    ensures forall i :: 0 <= i < |bodies| ==> (PassesTypeTest(bodies[i].bodyType, Body.STATIC) <==> InSome(calls, i))
    ensures forall i :: 0 <= i < |bodies| && bodies[i].bodyType in {Body.DYNAMIC, Body.STATIC, Body.KINEMATIC} ==>
      (InSome(calls, i) <==> bodies[i].bodyType != Body.STATIC)
  {
    NoneOpen(vis, passes);
    assert forall a :: 0 <= a < |calls| ==> AllPass(calls[a].island, passes) by {
      forall a | 0 <= a < |calls|
        ensures AllPass(calls[a].island, passes)
      {
        assert IslandOf(calls[a].island, equations, passes);
      }
    }
    ExitCovers(passes, vis, calls);
    NonStaticCovered(bodies, calls);
  }

  /** When no node may be picked, the islands hold exactly the bodies that
      pass the type test. */
  lemma ExitCovers(passes: seq<bool>, vis: seq<bool>, calls: seq<Call>)
    requires |vis| == |passes| && forall i :: 0 <= i < |vis| ==> !Open(i, vis, passes)
    requires forall i :: 0 <= i < |vis| ==> (vis[i] <==> InSome(calls, i))
    requires forall a :: 0 <= a < |calls| ==> AllPass(calls[a].island, passes)
    ensures forall i :: 0 <= i < |passes| ==> (passes[i] <==> InSome(calls, i))
  {
    forall i | 0 <= i < |passes| && InSome(calls, i)
      ensures passes[i]
    {
      var a :| 0 <= a < |calls| && i in calls[a].island.bodies;
      var m :| 0 <= m < |calls[a].island.bodies| && calls[a].island.bodies[m] == i;
      assert AllPass(calls[a].island, passes);
    }
    forall i | 0 <= i < |passes| && passes[i]
      ensures InSome(calls, i)
    {
      assert !Open(i, vis, passes);
    }
  }

  /** When the search over all nodes finds none, no node may be picked. */
  lemma NoneOpen(vis: seq<bool>, passes: seq<bool>)
    requires |vis| == |passes| && Find(Indices(|vis|), vis, passes).None?
    ensures forall i :: 0 <= i < |vis| ==> !Open(i, vis, passes)
  {
    var all := Indices(|vis|);
    forall i | 0 <= i < |vis|
      ensures !Open(i, vis, passes)
    {
      assert !Open(all[i], vis, passes);
    }
  }

  /** For the three body types, the bodies passing the intended type test
      are those that are not static. */
  lemma NonStaticCovered(bodies: seq<Body.Body>, calls: seq<Call>)
    requires forall i :: 0 <= i < |bodies| ==> (PassesTypeTest(bodies[i].bodyType, Body.STATIC) <==> InSome(calls, i))
    ensures forall i :: 0 <= i < |bodies| && bodies[i].bodyType in {Body.DYNAMIC, Body.STATIC, Body.KINEMATIC} ==>
      (InSome(calls, i) <==> bodies[i].bodyType != Body.STATIC)
  {
    Body.StaticBit();
  }
}
