/** How the vectors of `BeeKem` hold the nodes of a tree. */
module Vectors {
  import opened Results
  import opened Nodes
  import opened TreeMath
  import opened NodeKeys
  import opened KeyTree

  function Get<K, V>(m: map<K, V>, k: K): Option<V> {
    if k in m then Some(m[k]) else None
  }

  /** An inner node of a tree with 2^depth leaves. */
  /** One slot per leaf. */
  ghost predicate LeavesMatch(vec: seq<Option<LeafNode>>, m: map<nat, LeafNode>, depth: nat) {
    && |vec| == Pow2(depth)
    && (forall i :: 0 <= i < |vec| ==> vec[i] == Get(m, i))
    && (forall i :: i in m ==> i < |vec|)
  }

  /** One slot per inner node, at its in-order position among the inner nodes. */
  ghost predicate InnerMatch(vec: seq<Option<Store>>, m: map<Node, Store>, depth: nat) {
    && |vec| == Pow2(depth) - 1
    && (forall n :: n in m ==> Inner(n, depth))
    && (forall n :: Inner(n, depth) ==> (IndexInBounds(n, depth); vec[InnerIndex(n)] == Get(m, n)))
  }

  lemma WriteLeaf(vec: seq<Option<LeafNode>>, m: map<nat, LeafNode>, depth: nat, i: nat, leaf: LeafNode)
    requires LeavesMatch(vec, m, depth) && i < |vec|
    ensures LeavesMatch(vec[i := Some(leaf)], m[i := leaf], depth)
  {}

  lemma ClearLeaf(vec: seq<Option<LeafNode>>, m: map<nat, LeafNode>, depth: nat, i: nat)
    requires LeavesMatch(vec, m, depth) && i < |vec|
    ensures LeavesMatch(vec[i := None], m - {i}, depth)
  {}

  lemma WriteInner(vec: seq<Option<Store>>, m: map<Node, Store>, depth: nat, n: Node, s: Store)
    requires InnerMatch(vec, m, depth) && Inner(n, depth)
    ensures InnerIndex(n) < |vec| && InnerMatch(vec[InnerIndex(n) := Some(s)], m[n := s], depth)
  {
    hide InTree, InnerIndex;
    IndexInBounds(n, depth);
    forall v | Inner(v, depth)
      ensures InnerIndex(v) < |vec| && vec[InnerIndex(n) := Some(s)][InnerIndex(v)] == Get(m[n := s], v)
    {
      IndexInBounds(v, depth);
      if InnerIndex(v) == InnerIndex(n) {
        InnerIndexInjective(v, n);
      }
    }
  }

  lemma ClearInner(vec: seq<Option<Store>>, m: map<Node, Store>, depth: nat, n: Node)
    requires InnerMatch(vec, m, depth) && Inner(n, depth)
    ensures InnerIndex(n) < |vec| && InnerMatch(vec[InnerIndex(n) := None], m - {n}, depth)
  {
    hide InTree, InnerIndex;
    IndexInBounds(n, depth);
    forall v | Inner(v, depth)
      ensures InnerIndex(v) < |vec| && vec[InnerIndex(n) := None][InnerIndex(v)] == Get(m - {n}, v)
    {
      IndexInBounds(v, depth);
      if InnerIndex(v) == InnerIndex(n) {
        InnerIndexInjective(v, n);
      }
    }
  }

  /** Vectors resized for the next depth: the old tree stays where it is, as the left
      subtree of the new root, and everything else is blank. */
  lemma GrowLeaves(vec: seq<Option<LeafNode>>, m: map<nat, LeafNode>, depth: nat, extra: seq<Option<LeafNode>>)
    requires LeavesMatch(vec, m, depth) && |extra| == Pow2(depth) && forall i :: 0 <= i < |extra| ==> extra[i] == None
    ensures LeavesMatch(vec + extra, m, depth + 1)
  {}

  lemma GrowInner(vec: seq<Option<Store>>, m: map<Node, Store>, depth: nat, extra: seq<Option<Store>>)
    requires InnerMatch(vec, m, depth) && |extra| == Pow2(depth) && forall i :: 0 <= i < |extra| ==> extra[i] == None
    ensures InnerMatch(vec + extra, m, depth + 1)
  {
    hide InnerIndex;
    var all := vec + extra;
    assert |all| == Pow2(depth + 1) - 1;
    forall n | n in m
      ensures Inner(n, depth + 1)
    {
      InTreeInLarger(n, depth);
    }
    forall n | Inner(n, depth + 1)
      ensures InnerIndex(n) < |all| && all[InnerIndex(n)] == Get(m, n)
    {
      IndexInBounds(n, depth + 1);
      if Inner(n, depth) {
        IndexInBounds(n, depth);
      } else if InnerIndex(n) < |vec| {
        var v := SlotIsNode(InnerIndex(n), depth);
        InnerIndexInjective(v, n);
      }
    }
  }

  lemma InTreeInLarger(n: Node, depth: nat)
    requires InTree(n, depth)
    ensures InTree(n, depth + 1)
  {
    Pow2Monotone(depth - n.level, depth + 1 - n.level);
  }

  lemma ReadInner(vec: seq<Option<Store>>, m: map<Node, Store>, depth: nat, n: Node)
    requires InnerMatch(vec, m, depth) && Inner(n, depth)
    ensures InnerIndex(n) < |vec| && vec[InnerIndex(n)] == Get(m, n)
  {
    IndexInBounds(n, depth);
  }

  // ----- Blanking a path level by level -----

  function BlankedTo(inner: map<Node, Store>, i: nat, k: nat): map<Node, Store> {
    map n | n in inner && !(n.level <= k && Under(i, n)) :: inner[n]
  }

  lemma BlankStep(inner: map<Node, Store>, i: nat, k: nat)
    ensures BlankedTo(inner, i, k) - {Anc(i, k + 1)} == BlankedTo(inner, i, k + 1)
  {}

  lemma BlankedAll(inner: map<Node, Store>, i: nat, depth: nat)
    requires forall n :: n in inner ==> Inner(n, depth)
    ensures BlankedTo(inner, i, 0) == inner && BlankedTo(inner, i, depth) == Blanked(inner, {i})
  {}

  lemma BlankedTwice(inner: map<Node, Store>, a: set<nat>, b: set<nat>)
    ensures Blanked(Blanked(inner, a), b) == Blanked(inner, a + b)
  {}

  lemma {:induction false} TrimUnique(leaves: map<nat, LeafNode>, n: nat, m: nat)
    requires m <= n && (forall j :: m <= j < n ==> j !in leaves) && (m == 0 || m - 1 in leaves)
    ensures m == Trim(leaves, n)
  {
    if m < n {
      assert n - 1 !in leaves;
      TrimUnique(leaves, n - 1, m);
    }
  }
}
