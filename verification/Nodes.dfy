/** Nodes of the complete binary tree, addressed by level and position.

    A `Node` stands for the code's `TreeNodeIndex`: leaf `i` is `Node(0, i)` and
    an inner node is named by its height above the leaves and its rank from the
    left. Module TreeMath proves that the bit arithmetic the code performs on
    its `u32` indices computes exactly the operations defined here. */
module Nodes {

  datatype Node = Node(level: nat, pos: nat)

  function Pow2(k: nat): (p: nat)
    ensures p >= 1
  {
    if k == 0 then 1 else 2 * Pow2(k - 1)
  }

  function Parent(n: Node): Node {
    Node(n.level + 1, n.pos / 2)
  }

  function Left(n: Node): Node
    requires n.level > 0
  {
    Node(n.level - 1, 2 * n.pos)
  }

  function Right(n: Node): Node
    requires n.level > 0
  {
    Node(n.level - 1, 2 * n.pos + 1)
  }

  function Sibling(n: Node): Node {
    Node(n.level, if n.pos % 2 == 0 then n.pos + 1 else n.pos - 1)
  }

  function Leaf(i: nat): Node {
    Node(0, i)
  }

  function Root(depth: nat): Node {
    Node(depth, 0)
  }

  /** The node belongs to a tree with 2^depth leaves. */
  predicate InTree(n: Node, depth: nat) {
    n.level <= depth && n.pos < Pow2(depth - n.level)
  }

  predicate Inner(n: Node, depth: nat) {
    n.level > 0 && InTree(n, depth)
  }

  /** The ancestor of leaf `i` at level `k`. */
  function Anc(i: nat, k: nat): (n: Node)
    ensures n.level == k
  {
    if k == 0 then Leaf(i) else Parent(Anc(i, k - 1))
  }

  /** Leaf `i` lies in the subtree of `v`. */
  predicate Under(i: nat, v: Node) {
    Anc(i, v.level) == v
  }

  lemma ParentInTree(n: Node, depth: nat)
    requires InTree(n, depth) && n.level < depth
    ensures InTree(Parent(n), depth)
  {}

  lemma SiblingInTree(n: Node, depth: nat)
    requires InTree(n, depth) && n.level < depth
    ensures InTree(Sibling(n), depth)
  {
    var half := Pow2(depth - n.level - 1);
    assert n.pos < 2 * half;
  }

  lemma ChildrenInTree(n: Node, depth: nat)
    requires InTree(n, depth) && n.level > 0
    ensures InTree(Left(n), depth) && InTree(Right(n), depth)
  {}

  lemma {:induction false} AncInTree(i: nat, k: nat, depth: nat)
    requires i < Pow2(depth) && k <= depth
    ensures InTree(Anc(i, k), depth)
  {
    if k > 0 {
      AncInTree(i, k - 1, depth);
    }
  }

  lemma AncRoot(i: nat, depth: nat)
    requires i < Pow2(depth)
    ensures Anc(i, depth) == Root(depth)
  {
    AncInTree(i, depth, depth);
  }

  /** The child of `v` towards a leaf below it is its left or its right child. */
  lemma UnderChild(i: nat, v: Node)
    requires v.level > 0 && Under(i, v)
    ensures Anc(i, v.level - 1) == Left(v) || Anc(i, v.level - 1) == Right(v)
  {}

  /** Leaves that meet at level `k` meet at every higher level. */
  lemma {:induction false} MeetAbove(i: nat, j: nat, k: nat, m: nat)
    requires k <= m && Anc(i, k) == Anc(j, k)
    ensures Anc(i, m) == Anc(j, m)
  {
    if k < m {
      MeetAbove(i, j, k, m - 1);
    }
  }

  /** Where two leaves first meet, they come from sibling children. */
  lemma SiblingsMeet(i: nat, j: nat, k: nat)
    requires k > 0 && Anc(i, k) == Anc(j, k) && Anc(i, k - 1) != Anc(j, k - 1)
    ensures Anc(j, k - 1) == Sibling(Anc(i, k - 1))
  {}

  lemma {:induction false} Pow2Monotone(a: nat, b: nat)
    requires a <= b
    ensures Pow2(a) <= Pow2(b)
  {
    if a < b {
      Pow2Monotone(a, b - 1);
    }
  }

  /** Every leaf below an in-tree node is a leaf of the tree. */
  lemma {:induction false} UnderInTree(i: nat, k: nat, depth: nat)
    requires k <= depth && InTree(Anc(i, k), depth)
    ensures i < Pow2(depth)
    ensures forall j :: 0 <= j <= k ==> InTree(Anc(i, j), depth)
  {
    if k > 0 {
      UnderChild(i, Anc(i, k));
      ChildrenInTree(Anc(i, k), depth);
      UnderInTree(i, k - 1, depth);
    }
  }

  /** `k` steps up from a node. */
  function Up(n: Node, k: nat): (u: Node)
    ensures u.level == n.level + k
  {
    if k == 0 then n else Parent(Up(n, k - 1))
  }

  /** The level at which two leaves first have a common ancestor. */
  function MeetLevel(i: nat, j: nat): nat {
    if i == j then 0 else 1 + MeetLevel(i / 2, j / 2)
  }

  lemma {:induction false} AncOfHalf(i: nat, k: nat)
    ensures Anc(i, k + 1) == Node(k + 1, Anc(i / 2, k).pos)
  {
    if k > 0 {
      AncOfHalf(i, k - 1);
    }
  }

  lemma {:induction false} MeetLevelIsFirst(i: nat, j: nat, k: nat)
    ensures Anc(i, k) == Anc(j, k) <==> MeetLevel(i, j) <= k
    decreases k
  {
    if i == j {
    } else if k > 0 {
      MeetLevelIsFirst(i / 2, j / 2, k - 1);
      AncOfHalf(i, k - 1);
      AncOfHalf(j, k - 1);
    }
  }
}
