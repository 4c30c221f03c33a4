/** The octree: a node stores items whose boxes it contains, and hands each
    new item down to the first of its eight octants that contains it,
    creating the octants on demand.

    A node is an immutable value; `insert` and `removeEmptyNodes` return
    the updated node. The AABB `contains` and `overlaps` tests are
    parameters. The depth limit is a parameter too: the tree reads it from
    its root. */
module Octree {
  import opened Wrappers
  import opened Vectors

  datatype Node<D> = Node(box: Aabb, data: seq<D>, children: seq<Node<D>>)

  /** The octant corners in the order `subdivide` creates the children. */
  const Corners: seq<Vec3> := [
    Vec3(0.0, 0.0, 0.0), Vec3(1.0, 0.0, 0.0), Vec3(1.0, 1.0, 0.0), Vec3(1.0, 1.0, 1.0),
    Vec3(0.0, 1.0, 1.0), Vec3(0.0, 0.0, 1.0), Vec3(1.0, 0.0, 1.0), Vec3(0.0, 1.0, 0.0)]

  function Leaf<D>(box: Aabb): Node<D>
  {
    Node(box, [], [])
  }

  /** Every node has no children or all eight. */
  predicate WellFormed<D>(n: Node<D>)
  {
    (|n.children| == 0 || |n.children| == 8) &&
    forall k :: 0 <= k < |n.children| ==> WellFormed(n.children[k])
  }

  /** The items stored in a subtree. */
  function Bag<D>(n: Node<D>): multiset<D>
  {
    multiset(n.data) + BagOf(n.children)
  }

  function BagOf<D>(cs: seq<Node<D>>): multiset<D>
  {
    if |cs| == 0 then multiset{} else BagOf(cs[..|cs| - 1]) + Bag(cs[|cs| - 1])
  }

  /** Half the diagonal of a box. */
  function Half(box: Aabb): Vec3
  {
    Scale(0.5, Sub(box.upper, box.lower))
  }

  /** The octant at `corner`: lower = l + corner * half, upper = lower + half. */
  function Octant(box: Aabb, corner: Vec3): Aabb
  {
    var lower := Add(Mul(corner, Half(box)), box.lower);
    Aabb(lower, Add(lower, Half(box)))
  }

  /** `subdivide`: appends the eight octants as empty children. */
  function Subdivide<D>(n: Node<D>): (r: Node<D>)
    ensures r.box == n.box && r.data == n.data
    ensures |r.children| == |n.children| + 8 && r.children[..|n.children|] == n.children
    ensures forall k :: |n.children| <= k < |r.children| ==> r.children[k].data == [] && r.children[k].children == []
    ensures forall k :: |n.children| <= k < |r.children| ==>
      r.children[k].box.lower == Add(Mul(Corners[k - |n.children|], Half(n.box)), n.box.lower) &&
      Sub(r.children[k].box.upper, r.children[k].box.lower) == Half(n.box)
    ensures Bag(r) == Bag(n)
  {
    var r := n.(children := n.children + seq(8, k requires 0 <= k < 8 => Leaf(Octant(n.box, Corners[k]))));
    BagOfAppendLeaves(n.children, r.children[|n.children|..]);
    assert r.children == n.children + r.children[|n.children|..];
    r
  }

  /** Every octant of a proper box lies inside it. */
  lemma OctantsInside(box: Aabb, k: nat)
    requires LessEq(box.lower, box.upper) && k < 8
    ensures LessEq(box.lower, Octant(box, Corners[k]).lower)
    ensures LessEq(Octant(box, Corners[k]).upper, box.upper)
  {
  }

  /** The eight octants are distinct whenever the box has volume. */
  lemma OctantsDistinct(box: Aabb, k1: nat, k2: nat)
    requires box.lower.x < box.upper.x && box.lower.y < box.upper.y && box.lower.z < box.upper.z
    requires k1 < 8 && k2 < 8 && k1 != k2
    ensures Octant(box, Corners[k1]).lower != Octant(box, Corners[k2]).lower
  {
  }

  lemma BagOfAppendLeaves<D>(cs: seq<Node<D>>, leaves: seq<Node<D>>)
    requires forall k :: 0 <= k < |leaves| ==> leaves[k].data == [] && leaves[k].children == []
    ensures BagOf(cs + leaves) == BagOf(cs)
    decreases |leaves|
  {
    if |leaves| > 0 {
      var last := leaves[|leaves| - 1];
      assert (cs + leaves)[..|cs + leaves| - 1] == cs + leaves[..|leaves| - 1];
      BagOfAppendLeaves(cs, leaves[..|leaves| - 1]);
      assert last.data == [] && last.children == [];
      assert Bag(last) == multiset{} + BagOf([]);
      assert (cs + leaves)[|cs + leaves| - 1] == last;
    } else {
      assert cs + leaves == cs;
    }
  }

  /** The bag of a list after replacing one element. */
  lemma {:induction false} BagOfUpdate<D>(cs: seq<Node<D>>, i: nat, c: Node<D>)
    requires i < |cs|
    ensures BagOf(cs[i := c]) + Bag(cs[i]) == BagOf(cs) + Bag(c)
    decreases |cs|
  {
    var n := |cs| - 1;
    if i < n {
      assert cs[i := c][..n] == cs[..n][i := c];
      assert cs[i := c][n] == cs[n] && cs[..n][i] == cs[i];
      BagOfUpdate(cs[..n], i, c);
      var a, b, x, y := BagOf(cs[..n][i := c]), Bag(cs[n]), Bag(cs[i]), BagOf(cs[..n]);
      assert BagOf(cs[i := c]) == a + b;
      assert BagOf(cs) == y + b;
      assert a + x == y + Bag(c);
      assert (a + b) + x == (a + x) + b;
    } else {
      assert cs[i := c][..n] == cs[..n];
      assert cs[i := c][n] == c;
    }
  }

  lemma Cancel<D>(a: multiset<D>, b: multiset<D>, c: multiset<D>)
    requires a + c == b + c
    ensures a == b
  {
    assert forall x :: a[x] == (a + c)[x] - c[x];
  }

  function Depth(level: int, maxDepth: int): nat
  {
    if level < maxDepth then maxDepth - level else 0
  }

  /** `insert(aabb, item, level)`: refuses an item the node's box does not
      contain; below the depth limit it offers the item to the eight
      children in order, creating them first if there are none, and keeps
      it in this node when no child takes it (dropping children it has just
      created). A node with fewer than eight children throws once the loop
      reaches a missing child. */
  function Insert<D>(n: Node<D>, box: Aabb, item: D, level: int, maxDepth: int, contains: (Aabb, Aabb) -> bool): (r: Result<(Node<D>, bool)>)
    ensures !contains(n.box, box) ==> r == Ok((n, false))
    ensures contains(n.box, box) && r.Ok? ==> r.value.1
    ensures r.Ok? ==> r.value.0.box == n.box
    ensures r.Ok? ==> Bag(r.value.0) == Bag(n) + (if r.value.1 then multiset{item} else multiset{})
    ensures contains(n.box, box) && level >= maxDepth ==> r == Ok((n.(data := n.data + [item]), true))
    ensures WellFormed(n) ==> r.Ok? && WellFormed(r.value.0)
    decreases Depth(level, maxDepth), 1
  {
    if !contains(n.box, box) then Ok((n, false))
    else if level < maxDepth then
      var subdivided := |n.children| == 0;
      var n1 := if subdivided then Subdivide(n) else n;
      SubdivideWellFormed(n);
      var placed :- InsertChildren(n1.children, 0, box, item, level, maxDepth, contains);
      if placed.1 then
        ChildrenWellFormed(n1, placed.0);
        SwapChildren(n1, placed.0, item);
        Ok((n1.(children := placed.0), true))
      else
        // Children created for this item are dropped again, so the node
        // is the one given with the item added to its own data.
        AddHere(n, item);
        Ok((n.(data := n.data + [item]), true))
    else
      AddHere(n, item);
      Ok((n.(data := n.data + [item]), true))
  }

  /** Keeping an item in a node's own data adds it to the bag and keeps the
      shape. */
  lemma AddHere<D>(n: Node<D>, item: D)
    ensures Bag(n.(data := n.data + [item])) == Bag(n) + multiset{item}
    ensures WellFormed(n) ==> WellFormed(n.(data := n.data + [item]))
  {
  }

  /** Replacing the children by a list holding one more item adds that item
      to the bag. */
  lemma SwapChildren<D>(n: Node<D>, cs: seq<Node<D>>, item: D)
    requires BagOf(cs) == BagOf(n.children) + multiset{item}
    ensures Bag(n.(children := cs)) == Bag(n) + multiset{item}
  {
  }

  /** A childless node subdivides into a well-formed node. */
  lemma SubdivideWellFormed<D>(n: Node<D>)
    ensures n.children == [] ==> WellFormed(Subdivide(n))
  {
    var r := Subdivide(n);
    if n.children == [] {
      forall k | 0 <= k < |r.children|
        ensures WellFormed(r.children[k])
      {
        assert r.children[k].children == [];
      }
    }
  }

  /** A node whose children are as many as before, each well formed, is
      well formed when the children it had were eight or none. */
  lemma ChildrenWellFormed<D>(n: Node<D>, cs: seq<Node<D>>)
    ensures (|cs| == 0 || |cs| == 8) && (forall k :: 0 <= k < |cs| ==> WellFormed(cs[k])) ==> WellFormed(n.(children := cs))
  {
  }

  /** The loop over the children, from child `i` on. */
  function InsertChildren<D>(cs: seq<Node<D>>, i: nat, box: Aabb, item: D, level: int, maxDepth: int, contains: (Aabb, Aabb) -> bool): (r: Result<(seq<Node<D>>, bool)>)
    requires level < maxDepth && i <= 8
    ensures r.Ok? && !r.value.1 ==> r.value.0 == cs
    ensures r.Ok? && r.value.1 ==> |r.value.0| == |cs| && BagOf(r.value.0) == BagOf(cs) + multiset{item}
    ensures |cs| == 8 && (forall k :: 0 <= k < |cs| ==> WellFormed(cs[k])) ==>
      r.Ok? && forall k :: 0 <= k < |r.value.0| ==> WellFormed(r.value.0[k])
    decreases Depth(level, maxDepth), 0, 8 - i
  {
    if i == 8 then Ok((cs, false))
    else if i >= |cs| then Err(TypeError("Cannot read properties of undefined (reading 'insert')"))
    else
      var child :- Insert(cs[i], box, item, level + 1, maxDepth, contains);
      if child.1 then
        BagOfUpdate(cs, i, child.0);
        Cancel(BagOf(cs[i := child.0]), BagOf(cs) + multiset{item}, Bag(cs[i]));
        UpdateWellFormed(cs, i, child.0);
        Ok((cs[i := child.0], true))
      else
        InsertChildren(cs, i + 1, box, item, level, maxDepth, contains)
  }

  /** Replacing a child of a well-formed list by a well-formed node keeps
      every child well formed. */
  lemma UpdateWellFormed<D>(cs: seq<Node<D>>, i: nat, c: Node<D>)
    requires i < |cs|
    ensures AllWellFormed(cs) && WellFormed(c) ==> AllWellFormed(cs[i := c])
  {
  }

  predicate AllWellFormed<D>(cs: seq<Node<D>>)
  {
    forall k :: 0 <= k < |cs| ==> WellFormed(cs[k])
  }

  /** What `aabbQuery` reports from a subtree: the data of every node whose
      box overlaps the query. */
  function Query<D>(n: Node<D>, q: Aabb, overlaps: (Aabb, Aabb) -> bool): multiset<D>
  {
    (if overlaps(n.box, q) then multiset(n.data) else multiset{}) + QueryOf(n.children, q, overlaps)
  }

  function QueryOf<D>(cs: seq<Node<D>>, q: Aabb, overlaps: (Aabb, Aabb) -> bool): multiset<D>
  {
    if |cs| == 0 then multiset{} else QueryOf(cs[..|cs| - 1], q, overlaps) + Query(cs[|cs| - 1], q, overlaps)
  }

  function Count<D>(n: Node<D>): nat
  {
    1 + CountOf(n.children)
  }

  function CountOf<D>(cs: seq<Node<D>>): nat
  {
    if |cs| == 0 then 0 else CountOf(cs[..|cs| - 1]) + Count(cs[|cs| - 1])
  }

  lemma {:induction false} QueryOfAppend<D>(a: seq<Node<D>>, b: seq<Node<D>>, q: Aabb, overlaps: (Aabb, Aabb) -> bool)
    ensures QueryOf(a + b, q, overlaps) == QueryOf(a, q, overlaps) + QueryOf(b, q, overlaps)
    ensures CountOf(a + b) == CountOf(a) + CountOf(b)
    decreases |b|
  {
    if |b| == 0 {
      assert a + b == a;
    } else {
      assert (a + b)[..|a + b| - 1] == a + b[..|b| - 1];
      QueryOfAppend(a, b[..|b| - 1], q, overlaps);
    }
  }

  /** `aabbQuery`: walks the tree with an explicit stack, appending the data
      of each popped node whose box overlaps the query. */
  method AabbQuery<D>(root: Node<D>, q: Aabb, result0: seq<D>, overlaps: (Aabb, Aabb) -> bool) returns (result: seq<D>)
    ensures |result| >= |result0| && result[..|result0|] == result0
    ensures multiset(result) == multiset(result0) + Query(root, q, overlaps)
  {
    result := result0;
    var queue := [root];
    assert QueryOf(queue, q, overlaps) == Query(root, q, overlaps) by {
      assert queue[..0] == [];
    }
    while |queue| > 0
      invariant |result| >= |result0| && result[..|result0|] == result0
      invariant multiset(result) + QueryOf(queue, q, overlaps) == multiset(result0) + Query(root, q, overlaps)
      decreases CountOf(queue)
    {
      var node := queue[|queue| - 1];
      var rest := queue[..|queue| - 1];
      if overlaps(node.box, q) {
        result := result + node.data;
      }
      QueryOfAppend(rest, node.children, q, overlaps);
      assert CountOf(queue) == CountOf(rest) + 1 + CountOf(node.children);
      queue := rest + node.children;
    }
  }

  predicate IsEmpty<D>(n: Node<D>)
  {
    |n.children| == 0 && |n.data| == 0
  }

  /** No descendant is an empty node. */
  predicate Pruned<D>(n: Node<D>)
  {
    forall k :: 0 <= k < |n.children| ==> !IsEmpty(n.children[k]) && Pruned(n.children[k])
  }

  /** `removeEmptyNodes`: cleans each child, from the last to the first, and
      removes it if it is then left with no data and no children. */
  function RemoveEmptyNodes<D>(n: Node<D>): (r: Node<D>)
    ensures r.box == n.box && r.data == n.data
    ensures Bag(r) == Bag(n)
    ensures Pruned(r)
    ensures |r.children| <= |n.children|
  {
    n.(children := RemoveEmptyChildren(n.children))
  }

  function RemoveEmptyChildren<D>(cs: seq<Node<D>>): (r: seq<Node<D>>)
    ensures BagOf(r) == BagOf(cs)
    ensures forall k :: 0 <= k < |r| ==> !IsEmpty(r[k]) && Pruned(r[k])
    ensures |r| <= |cs|
  {
    if |cs| == 0 then []
    else
      var rest := RemoveEmptyChildren(cs[..|cs| - 1]);
      var last := RemoveEmptyNodes(cs[|cs| - 1]);
      if IsEmpty(last) then
        assert Bag(last) == multiset{};
        rest
      else
        assert (rest + [last])[..|rest|] == rest;
        rest + [last]
  }

  /** `reset`: drops all children and data. */
  function Reset<D>(n: Node<D>): (r: Node<D>)
    ensures r.box == n.box && Bag(r) == multiset{} && WellFormed(r)
  {
    Leaf(n.box)
  }
}
