/** The array-based tree of Appendix C of RFC 9420, as coded on `u32` indices.

    Bit operations are written as recursion on binary digits. A value of type
    `u32` bound to a `var` or returned is one the code computes without
    overflow; shift amounts are below 32. */
module TreeMath {
  import opened Results
  import opened Nodes

  type u32 = x: nat | x < 0x1_0000_0000

  function Shl(x: nat, k: nat): nat {
    if k == 0 then x else 2 * Shl(x, k - 1)
  }

  function Shr(x: nat, k: nat): nat {
    if k == 0 then x else Shr(x / 2, k - 1)
  }

  function Or(x: nat, y: nat): nat {
    if x == 0 && y == 0 then 0
    else 2 * Or(x / 2, y / 2) + (if x % 2 == 1 || y % 2 == 1 then 1 else 0)
  }

  function Xor(x: nat, y: nat): nat {
    if x == 0 && y == 0 then 0
    else 2 * Xor(x / 2, y / 2) + (if x % 2 != y % 2 then 1 else 0)
  }

  /** Position of a node in the in-order layout: leaf `i` sits at `2i`, and each
      level up doubles and adds one. */
  function Index(n: Node): nat
    decreases n.level
  {
    if n.level == 0 then 2 * n.pos else 2 * Index(Node(n.level - 1, n.pos)) + 1
  }

  /** `to_tree_index` undone: the node at a layout position. */
  function NodeAt(x: nat): Node {
    if x % 2 == 0 then Node(0, x / 2)
    else var n := NodeAt(x / 2); Node(n.level + 1, n.pos)
  }

  /** Slot of an inner node in the `inner_nodes` vector. */
  function InnerIndex(n: Node): nat
    requires n.level > 0
  {
    (Index(n) - 1) / 2
  }

  /** Number of trailing one bits. */
  function Level(x: nat): nat {
    if x % 2 == 0 then 0 else 1 + Level(x / 2)
  }

  /** Position of the highest set bit, and 0 for 0. */
  function Log2(x: nat): nat {
    if x <= 1 then 0 else 1 + Log2(x / 2)
  }

  lemma Halves(y: nat)
    ensures (2 * y) / 2 == y && (2 * y) % 2 == 0
    ensures (2 * y + 1) / 2 == y && (2 * y + 1) % 2 == 1
  {}

  // ----- The layout is a bijection -----

  lemma {:induction false} IndexRoundTrip(n: Node)
    ensures NodeAt(Index(n)) == n
    ensures Level(Index(n)) == n.level
    decreases n.level
  {
    if n.level == 0 {
      Halves(n.pos);
    } else {
      var c := Node(n.level - 1, n.pos);
      IndexRoundTrip(c);
      Halves(Index(c));
    }
  }

  lemma {:induction false} NodeRoundTrip(x: nat)
    ensures Index(NodeAt(x)) == x
  {
    if x % 2 == 1 {
      NodeRoundTrip(x / 2);
    }
  }

  lemma InnerIndexInjective(a: Node, b: Node)
    requires a.level > 0 && b.level > 0 && InnerIndex(a) == InnerIndex(b)
    ensures a == b
  {
    hide Index, NodeAt, Level;
    InnerIsOdd(a);
    InnerIsOdd(b);
    IndexRoundTrip(a);
    IndexRoundTrip(b);
  }

  lemma {:induction false} IndexInBounds(n: Node, depth: nat)
    requires InTree(n, depth)
    ensures Index(n) + 1 < Pow2(depth + 1)
    ensures n.level > 0 ==> InnerIndex(n) + 1 < Pow2(depth)
    decreases n.level
  {
    if n.level > 0 {
      IndexInBounds(Node(n.level - 1, n.pos), depth - 1);
    }
  }

  /** Every slot of the `inner_nodes` vector is an inner node of the tree. */
  lemma {:induction false} SlotIsNode(j: nat, depth: nat) returns (n: Node)
    requires j + 1 < Pow2(depth)
    ensures n.level > 0 && InTree(n, depth) && InnerIndex(n) == j
  {
    n := NodeAt(2 * j + 1);
    NodeRoundTrip(2 * j + 1);
    NodeInBounds(2 * j + 1, depth);
  }

  lemma {:induction false} NodeInBounds(x: nat, depth: nat)
    requires x + 1 < Pow2(depth + 1)
    ensures InTree(NodeAt(x), depth)
  {
    if x % 2 == 1 {
      assert depth > 0;
      NodeInBounds(x / 2, depth - 1);
    }
  }

  // ----- Bounds: a tree of depth at most 30 fits in 31-bit indices -----

  lemma {:induction false} BitwiseBound(x: nat, y: nat, k: nat)
    requires x < Pow2(k) && y < Pow2(k)
    ensures Or(x, y) < Pow2(k) && Xor(x, y) < Pow2(k)
  {
    if k > 0 {
      BitwiseBound(x / 2, y / 2, k - 1);
    }
  }

  lemma {:induction false} ShlIsPow2(k: nat)
    ensures Shl(1, k) == Pow2(k)
  {
    if k > 0 {
      ShlIsPow2(k - 1);
    }
  }

  lemma {:induction false} LevelBound(x: nat, k: nat)
    requires x + 1 < Pow2(k)
    ensures Level(x) < k
  {
    if x % 2 == 1 {
      LevelBound(x / 2, k - 1);
    }
  }

  lemma Pow2Constants()
    ensures Pow2(31) == 0x8000_0000 && Pow2(32) == 0x1_0000_0000
  {
    assert Pow2(8) == 0x100;
    assert Pow2(16) == 0x1_0000;
    assert Pow2(24) == 0x100_0000;
  }

  // ----- parent, left, right, sibling -----

  /** `treemath::parent`: set the lowest clear bit, clear the bit above it. */
  function ParentBits(x: nat): nat {
    var k := Level(x);
    Xor(Or(x, Shl(1, k)), Shl(Shr(x, k + 1) % 2, k + 1))
  }

  function LeftBits(x: nat): nat
    requires x % 2 == 1
  {
    Xor(x, Shl(1, Level(x) - 1))
  }

  function RightBits(x: nat): nat
    requires x % 2 == 1
  {
    Xor(x, Shl(3, Level(x) - 1))
  }

  function SiblingBits(x: nat): nat
    requires ParentBits(x) % 2 == 1
  {
    var p := ParentBits(x);
    if x < p then RightBits(p) else LeftBits(p)
  }

  lemma {:induction false} XorZero(x: nat)
    ensures Xor(x, 0) == x && Or(x, 0) == x
  {
    if x > 0 {
      XorZero(x / 2);
    }
  }

  /** Both operations work digit by digit. */
  lemma DigitStep(x: nat, y: nat, a: nat, b: nat)
    requires a <= 1 && b <= 1
    ensures Xor(2 * x + a, 2 * y + b) == 2 * Xor(x, y) + (if a != b then 1 else 0)
    ensures Or(2 * x + a, 2 * y + b) == 2 * Or(x, y) + (if a == 1 || b == 1 then 1 else 0)
  {
    Halves(x);
    Halves(y);
  }

  lemma ParentOfLeafBits(h: nat, b: nat)
    requires b <= 1
    ensures ParentBits(2 * (2 * h + b)) == 4 * h + 1
  {
    hide Xor, Or;
    var m := 2 * h + b;
    Halves(m);
    Halves(h);
    assert Level(2 * m) == 0;
    assert Shr(2 * m, 1) % 2 == Shr(m, 0) % 2 == b;
    assert Shl(1, 0) == 1 && Shl(b, 1) == 2 * Shl(b, 0) == 2 * b;
    XorZero(m);
    DigitStep(m, 0, 0, 1);
    XorZero(h);
    DigitStep(h, 0, b, b);
    DigitStep(m, b, 1, 0);
    assert ParentBits(2 * m) == Xor(Or(2 * m, 1), 2 * b);
  }

  lemma ParentOfInnerBits(y: nat)
    ensures ParentBits(2 * y + 1) == 2 * ParentBits(y) + 1
  {
    hide Xor, Or;
    var x, k := 2 * y + 1, Level(y);
    Halves(y);
    assert Level(x) == k + 1;
    assert Shr(x, k + 2) == Shr(y, k + 1);
    var b := Shr(y, k + 1) % 2;
    var u, w := Shl(1, k), Shl(b, k + 1);
    assert Shl(1, k + 1) == 2 * u && Shl(b, k + 2) == 2 * w;
    DigitStep(y, u, 1, 0);
    DigitStep(Or(y, u), w, 1, 0);
    assert ParentBits(x) == Xor(Or(x, 2 * u), 2 * w);
  }

  lemma {:induction false} ParentIsParent(n: Node)
    ensures ParentBits(Index(n)) == Index(Parent(n))
    decreases n.level
  {
    hide ParentBits;
    if n.level == 0 {
      ParentOfLeafBits(n.pos / 2, n.pos % 2);
      assert Index(Parent(n)) == 2 * Index(Node(0, n.pos / 2)) + 1;
    } else {
      var c := Node(n.level - 1, n.pos);
      ParentIsParent(c);
      ParentOfInnerBits(Index(c));
      assert Index(Parent(n)) == 2 * Index(Parent(c)) + 1;
    }
  }

  lemma LowestChildrenBits(m: nat)
    ensures (4 * m + 1) % 2 == 1
    ensures LeftBits(4 * m + 1) == 4 * m && RightBits(4 * m + 1) == 4 * m + 2
  {
    hide Xor, Or;
    var y := 2 * m;
    Halves(y);
    Halves(m);
    assert Level(2 * y + 1) == 1 + Level(y) == 1;
    assert Shl(1, 0) == 1 && Shl(3, 0) == 3;
    XorZero(y);
    DigitStep(y, 0, 1, 1);
    XorZero(m);
    DigitStep(m, 0, 0, 1);
    DigitStep(y, 1, 1, 1);
  }

  lemma InnerChildrenBits(y: nat)
    requires y % 2 == 1
    ensures LeftBits(2 * y + 1) == 2 * LeftBits(y) + 1
    ensures RightBits(2 * y + 1) == 2 * RightBits(y) + 1
  {
    hide Xor, Or;
    var k := Level(y) - 1;
    Halves(y);
    assert Level(2 * y + 1) == k + 2;
    DigitStep(y, Shl(1, k), 1, 0);
    DigitStep(y, Shl(3, k), 1, 0);
  }

  lemma {:induction false} ChildrenAreChildren(n: Node)
    requires n.level > 0
    ensures LeftBits(Index(n)) == Index(Left(n))
    ensures RightBits(Index(n)) == Index(Right(n))
    decreases n.level
  {
    hide LeftBits, RightBits, Index;
    InnerIsOdd(n);
    if n.level == 1 {
      LowestChildrenBits(n.pos);
      LowestIndices(n.pos);
    } else {
      var c := Node(n.level - 1, n.pos);
      ChildrenAreChildren(c);
      InnerIsOdd(c);
      InnerChildrenBits(Index(c));
      IndexUp(n.level - 1, n.pos);
      IndexUp(n.level - 2, 2 * n.pos);
      IndexUp(n.level - 2, 2 * n.pos + 1);
    }
  }

  lemma LowestIndices(p: nat)
    ensures Index(Node(1, p)) == 4 * p + 1 && Index(Node(0, 2 * p)) == 4 * p && Index(Node(0, 2 * p + 1)) == 4 * p + 2
  {
    IndexUp(0, p);
  }

  lemma IndexUp(k: nat, p: nat)
    ensures Index(Node(k + 1, p)) == 2 * Index(Node(k, p)) + 1
  {}

  /** In-order layout: the left child lies before its parent, the right one after. */
  lemma {:induction false} LayoutOrder(k: nat, m: nat)
    ensures Index(Node(k, 2 * m)) < Index(Node(k + 1, m)) < Index(Node(k, 2 * m + 1))
  {
    assert Index(Node(k + 1, m)) == 2 * Index(Node(k, m)) + 1;
    if k > 0 {
      LayoutOrder(k - 1, m);
      assert Index(Node(k, 2 * m)) == 2 * Index(Node(k - 1, 2 * m)) + 1;
      assert Index(Node(k, 2 * m + 1)) == 2 * Index(Node(k - 1, 2 * m + 1)) + 1;
    }
  }

  lemma InnerIsOdd(n: Node)
    requires n.level > 0
    ensures Index(n) % 2 == 1
  {
    assert Index(n) == 2 * Index(Node(n.level - 1, n.pos)) + 1;
  }

  lemma SiblingIsSibling(n: Node)
    ensures ParentBits(Index(n)) % 2 == 1
    ensures SiblingBits(Index(n)) == Index(Sibling(n))
  {
    hide ParentBits, LeftBits, RightBits, Index;
    var p := Parent(n);
    ParentIsParent(n);
    ChildrenAreChildren(p);
    InnerIsOdd(p);
    LayoutOrder(n.level, p.pos);
    assert n == Left(p) || n == Right(p);
  }

  /** The bit tricks describe a tree: `left` and `right` invert `parent`, siblings share a
      parent and are mutual, and a node is the left or the right child of its parent. */
  lemma BitLaws(x: nat)
    ensures x % 2 == 1 ==> ParentBits(LeftBits(x)) == x && ParentBits(RightBits(x)) == x
    ensures ParentBits(x) % 2 == 1 && (x == LeftBits(ParentBits(x)) || x == RightBits(ParentBits(x)))
    ensures ParentBits(SiblingBits(x)) == ParentBits(x) && SiblingBits(SiblingBits(x)) == x && SiblingBits(x) != x
  {
    hide ParentBits, LeftBits, RightBits, SiblingBits, Index, NodeAt, Level, Parent, Sibling, Left, Right;
    NodeRoundTrip(x);
    var n := NodeAt(x);
    ParentIsParent(n);
    ParentIsParent(Sibling(n));
    SiblingIsSibling(n);
    SiblingIsSibling(Sibling(n));
    SiblingLaws(n);
    ChildrenAreChildren(Parent(n));
    InnerIsOdd(Parent(n));
    IndexRoundTrip(n);
    IndexRoundTrip(Sibling(n));
    if x % 2 == 1 {
      ChildLaws(n);
    }
  }

  lemma SiblingLaws(n: Node)
    ensures Sibling(Sibling(n)) == n && Sibling(n) != n && Parent(Sibling(n)) == Parent(n) && Parent(n).level > 0
    ensures n == Left(Parent(n)) || n == Right(Parent(n))
  {}

  lemma ChildLaws(n: Node)
    requires Index(n) % 2 == 1
    ensures ParentBits(LeftBits(Index(n))) == Index(n) && ParentBits(RightBits(Index(n))) == Index(n)
  {
    hide ParentBits, LeftBits, RightBits, Index;
    OddIsInner(n);
    ChildrenAreChildren(n);
    ParentIsParent(Left(n));
    ParentIsParent(Right(n));
    Halves(n.pos);
    assert Parent(Left(n)) == n && Parent(Right(n)) == n;
  }

  lemma OddIsInner(n: Node)
    requires Index(n) % 2 == 1
    ensures n.level > 0
  {}

  // ----- Loops of the code -----

  lemma {:induction false} ShrStep(x: nat, k: nat)
    ensures Shr(x, k + 1) == Shr(x, k) / 2
  {
    if k > 0 {
      ShrStep(x / 2, k - 1);
    }
  }

  /** `level`: the shift amount stays below 32 for every index but `u32::MAX`. */
  method ComputeLevel(x: u32) returns (k: nat)
    requires x != 0xFFFF_FFFF
    ensures k == Level(x) && k < 32
  {
    Pow2Constants();
    LevelBound(x, 32);
    if x % 2 == 0 {
      return 0;
    }
    k := 0;
    while Shr(x, k) % 2 == 1
      invariant Level(x) == k + Level(Shr(x, k))
      invariant k < 32
      decreases 32 - k
    {
      ShrStep(x, k);
      k := k + 1;
    }
  }

  lemma {:induction false} ShrVanishes(x: nat, k: nat)
    requires x > 0
    ensures Shr(x, k) > 0 <==> k <= Log2(x)
  {
    if k > 0 {
      if x == 1 {
        ShrOfZero(k - 1);
      } else {
        ShrVanishes(x / 2, k - 1);
      }
    }
  }

  lemma {:induction false} ShrOfZero(k: nat)
    ensures Shr(0, k) == 0
  {
    if k > 0 {
      ShrOfZero(k - 1);
    }
  }

  lemma {:induction false} Log2Bound(x: nat, k: nat)
    requires x > 0
    ensures Pow2(Log2(x)) <= x < Pow2(Log2(x) + 1)
    ensures x < Pow2(k) <==> Log2(x) < k
  {
    if x == 1 {
      assert Pow2(1) == 2;
    } else {
      Log2Bound(x / 2, if k == 0 then 0 else k - 1);
    }
  }

  /** `log2`: no shift reaches 32 when the argument is below 2^31. */
  method ComputeLog2(x: u32) returns (k: nat)
    requires x < 0x8000_0000
    ensures k == Log2(x) && k <= 30
  {
    if x == 0 {
      return 0;
    }
    Pow2Constants();
    Log2Bound(x, 31);
    k := 0;
    while Shr(x, k) > 0
      invariant k <= Log2(x) + 1 <= 31
      invariant k == 0 || Shr(x, k - 1) > 0
      decreases 32 - k
    {
      ShrVanishes(x, k);
      k := k + 1;
    }
    ShrVanishes(x, k);
    k := k - 1;
  }

  /** The value held by a `TreeSize` for a tree with 2^depth leaves. */
  function SizeOf(depth: nat): nat {
    Pow2(depth + 1) - 1
  }

  /** From 2^30 leaves on, `from_leaf_count` doubles past 32 bits or shifts by 32 bits. */
  lemma LeafCountTooLarge(leafCount: nat)
    requires leafCount >= 0x4000_0000
    ensures 2 * leafCount >= 0x1_0000_0000 || Log2(2 * leafCount) + 1 >= 32
  {
    Pow2Constants();
    Log2Bound(2 * leafCount, 31);
  }

  /** `TreeSize::from_leaf_count`: for leaf counts below 2^30 it neither overflows nor
      over-shifts. */
  method FromLeafCount(leafCount: u32) returns (size: u32)
    requires leafCount < 0x4000_0000
    ensures size == SizeOf(Log2(2 * leafCount))
    ensures forall depth :: size <= SizeOf(depth) <==> leafCount < Pow2(depth)
  {
    var nodes: u32 := 2 * leafCount;
    var k := ComputeLog2(nodes);
    ShlIsPow2(k + 1);
    Pow2Constants();
    Pow2Monotone(k + 1, 31);
    var shifted: u32 := Shl(1, k + 1);
    size := shifted - 1;
    forall depth: nat
      ensures size <= SizeOf(depth) <==> leafCount < Pow2(depth)
    {
      LeafCountFits(leafCount, depth);
    }
  }

  lemma SizeOfMonotone(a: nat, b: nat)
    ensures SizeOf(a) <= SizeOf(b) <==> a <= b
  {
    if a <= b {
      Pow2Monotone(a + 1, b + 1);
    } else {
      Pow2Monotone(b + 2, a + 1);
    }
  }

  lemma Log2DoubleFits(n: nat, depth: nat)
    ensures Log2(2 * n) <= depth <==> n < Pow2(depth)
  {
    if n > 0 {
      Log2Bound(n, depth);
      assert (2 * n) / 2 == n;
    }
  }

  /** A tree has room for one more leaf after `leafCount` exactly when its size is
      at least the size computed from that count. */
  lemma LeafCountFits(leafCount: nat, depth: nat)
    ensures SizeOf(Log2(2 * leafCount)) <= SizeOf(depth) <==> leafCount < Pow2(depth)
  {
    var k := Log2(2 * leafCount);
    Log2DoubleFits(leafCount, depth);
    SizeOfMonotone(k, depth);
  }

  /** `TreeSize::inc` doubles the number of leaves. */
  lemma IncDoubles(depth: nat)
    ensures 2 * SizeOf(depth) + 1 == SizeOf(depth + 1)
    ensures SizeOf(depth) / 2 + 1 == Pow2(depth) && SizeOf(depth) / 2 == Pow2(depth) - 1
  {}

  lemma {:induction false} RootIndex(depth: nat)
    ensures Index(Root(depth)) == Pow2(depth) - 1
    ensures Log2(SizeOf(depth)) == depth
  {
    if depth > 0 {
      RootIndex(depth - 1);
      assert SizeOf(depth) / 2 == SizeOf(depth - 1);
    }
  }

  /** `root` on the size of a tree. */
  method ComputeRoot(size: u32, ghost depth: nat) returns (r: u32)
    requires size == SizeOf(depth) && depth <= 30
    ensures r == Index(Root(depth))
  {
    Pow2Constants();
    Pow2Monotone(depth + 1, 31);
    var k := ComputeLog2(size);
    RootIndex(depth);
    ShlIsPow2(k);
    r := Shl(1, k) - 1;
  }

  lemma {:induction false} ShlBitBound(b: nat, k: nat)
    requires b <= 1
    ensures Shl(b, k) <= Pow2(k)
  {
    if k > 0 {
      ShlBitBound(b, k - 1);
    }
  }

  /** Below level 31 the values `parent` computes on the way are 32-bit values. */
  lemma ParentFits(x: nat, k: nat, b: nat)
    requires x < Pow2(32) && k < 31 && b <= 1
    ensures Shl(1, k) < Pow2(32) && Or(x, Shl(1, k)) < Pow2(32) && Shl(b, k + 1) < Pow2(32)
  {
    ShlBitBound(1, k);
    ShlBitBound(b, k + 1);
    Pow2Monotone(k + 1, 31);
    assert Pow2(31) < Pow2(32);
    BitwiseBound(x, Shl(1, k), 32);
  }

  /** Indices in a tree of depth at most 30 are below 2^31. */
  lemma IndexFits(n: Node, depth: nat)
    requires InTree(n, depth) && depth <= 31
    ensures Index(n) + 1 < Pow2(32) && Level(Index(n)) == n.level
    ensures depth <= 30 ==> Index(n) < Pow2(31)
  {
    hide Index, Level, NodeAt, Pow2;
    IndexInBounds(n, depth);
    Pow2Monotone(depth + 1, if depth <= 30 then 31 else 32);
    Pow2Monotone(31, 32);
    IndexRoundTrip(n);
  }

  lemma ParentSlot(n: Node, depth: nat)
    requires InTree(n, depth) && n.level < depth
    ensures InTree(Parent(n), depth)
    ensures Index(Parent(n)) == 2 * InnerIndex(Parent(n)) + 1
    ensures InnerIndex(Parent(n)) < Pow2(depth) - 1
  {
    ParentInTree(n, depth);
    IndexInBounds(Parent(n), depth);
    Halves(Index(Node(n.level, n.pos / 2)));
  }

  /** `parent`, with every intermediate value a `u32`; returns the inner-node slot. */
  method ComputeParent(x: u32, ghost n: Node, ghost depth: nat) returns (slot: nat)
    requires x == Index(n) && InTree(n, depth) && n.level < depth <= 31
    ensures slot == InnerIndex(Parent(n)) < Pow2(depth) - 1
    ensures InTree(Parent(n), depth) && 2 * slot + 1 == Index(Parent(n)) < 0xFFFF_FFFF
  {
    IndexFits(n, depth);
    ParentIsParent(n);
    ParentSlot(n, depth);
    IndexFits(Parent(n), depth);
    Pow2Constants();
    var k := ComputeLevel(x);
    ParentFits(x, k, Shr(x, k + 1) % 2);
    var bit: u32 := Shl(1, k);
    var raised: u32 := Or(x, bit);
    var carry: u32 := Shl(Shr(x, k + 1) % 2, k + 1);
    var p := Xor(raised, carry);
    slot := (p - 1) / 2;
  }

  lemma ChildrenFit(x: nat, k: nat)
    requires x < Pow2(31) && k < 30
    ensures Shl(1, k) < Pow2(31) && Shl(3, k) < Pow2(32)
  {
    ShlBitBound(1, k);
    Pow2Monotone(k, 30);
    ShlThree(k);
  }

  lemma {:induction false} ShlThree(k: nat)
    ensures Shl(3, k) == 3 * Pow2(k)
  {
    if k > 0 {
      ShlThree(k - 1);
    }
  }

  /** `left` and `right`, with every intermediate value a `u32`. */
  method ComputeChildren(x: u32, ghost n: Node, ghost depth: nat) returns (left: u32, right: u32)
    requires x == Index(n) && InTree(n, depth) && 0 < n.level && depth <= 30
    ensures left == Index(Left(n)) && right == Index(Right(n))
  {
    Pow2Constants();
    IndexFits(n, depth);
    InnerIsOdd(n);
    ChildrenAreChildren(n);
    ChildrenInTree(n, depth);
    IndexFits(Left(n), depth);
    IndexFits(Right(n), depth);
    var k := ComputeLevel(x);
    ChildrenFit(x, k - 1);
    var one: u32, three: u32 := Shl(1, k - 1), Shl(3, k - 1);
    left := Xor(x, one);
    right := Xor(x, three);
  }

  /** `sibling`. */
  method ComputeSibling(x: u32, ghost n: Node, ghost depth: nat) returns (s: u32)
    requires x == Index(n) && InTree(n, depth) && n.level < depth <= 30
    ensures s == Index(Sibling(n))
  {
    hide ParentBits, LeftBits, RightBits;
    SiblingIsSibling(n);
    ParentIsParent(n);
    ChildrenAreChildren(Parent(n));
    ParentInTree(n, depth);
    var slot := ComputeParent(x, n, depth);
    var p: u32 := 2 * slot + 1;
    var left, right := ComputeChildren(p, Parent(n), depth);
    s := if x < p then right else left;
  }

  /** The inner-node slots met on the way up from `n`, all within the tree. */
  predicate PathSlots(n: Node, depth: nat, path: seq<nat>) {
    forall j :: 0 <= j < |path| ==> path[j] == InnerIndex(Up(n, j + 1)) < Pow2(depth) - 1
  }

  lemma ExtendPath(n: Node, depth: nat, path: seq<nat>, slot: nat)
    requires PathSlots(n, depth, path) && slot == InnerIndex(Up(n, |path| + 1)) < Pow2(depth) - 1
    ensures PathSlots(n, depth, path + [slot])
  {}

  lemma BelowRoot(n: Node, depth: nat)
    requires InTree(n, depth)
    ensures n.level == depth <==> Index(n) == Index(Root(depth))
    ensures n.level == depth ==> n == Root(depth)
  {
    hide Index, NodeAt, Level;
    IndexRoundTrip(n);
    IndexRoundTrip(Root(depth));
  }

  /** Climbing from outside the tree never leads into it. */
  lemma OutsideStaysOutside(n: Node, depth: nat)
    requires !InTree(n, depth)
    ensures !InTree(Parent(n), depth)
  {}

  /** `direct_path`: the inner-node slots from above a node up to the root. A walk that
      starts outside the tree passes the root by; at level 31 the code shifts by 32 bits,
      and `None` stands for the overflow. */
  method DirectPath(x: u32, size: u32, ghost n: Node, ghost depth: nat) returns (r: Option<seq<nat>>)
    requires x == Index(n) && x != 0xFFFF_FFFF && depth <= 30 && size == SizeOf(depth)
    ensures r.Some? <==> InTree(n, depth)
    ensures r.Some? ==>
              && |r.value| == depth - n.level && PathSlots(n, depth, r.value)
              && Up(n, |r.value|) == Root(depth)
  {
    hide Index, InnerIndex, Level, InTree, PathSlots, Up, Parent, SizeOf;
    var root := ComputeRoot(size, depth);
    var path := [];
    var y: u32 := x;
    ghost var m := n;
    PathStart(n, depth);
    while y != root
      invariant y == Index(m) && InTree(m, 31) && m == Up(n, |path|)
      invariant InTree(m, depth) <==> InTree(n, depth)
      invariant m.level == n.level + |path| <= 31
      invariant InTree(n, depth) ==> PathSlots(n, depth, path)
      decreases 31 - m.level
    {
      var k := LevelOfNode(y, m);
      StepUp(m, n, depth, |path|);
      if k + 1 == 32 {
        return None;
      }
      var slot := ComputeParent(y, m, 31);
      m := Parent(m);
      if InTree(n, depth) {
        ExtendPath(n, depth, path, slot);
      }
      path := path + [slot];
      y := 2 * slot + 1;
    }
    AtRoot(m, depth);
    r := Some(path);
  }

  method LevelOfNode(x: u32, ghost n: Node) returns (k: nat)
    requires x == Index(n) && InTree(n, 31)
    ensures k == n.level
  {
    hide Index, Level, InTree;
    IndexFits(n, 31);
    Pow2Constants();
    k := ComputeLevel(x);
  }

  lemma PathStart(n: Node, depth: nat)
    requires Index(n) < 0xFFFF_FFFF
    ensures InTree(n, 31) && n.level <= 31 && Up(n, 0) == n && PathSlots(n, depth, [])
  {
    hide Index, NodeAt;
    Pow2Constants();
    NodeInBounds(Index(n), 31);
    IndexRoundTrip(n);
  }

  lemma StepUp(m: Node, n: Node, depth: nat, j: nat)
    requires depth <= 30 && Index(m) != Index(Root(depth)) && m == Up(n, j)
    ensures Parent(m) == Up(n, j + 1) && Parent(m).level == m.level + 1
    ensures InTree(Parent(m), depth) <==> InTree(m, depth)
    ensures InTree(m, depth) ==> m.level < depth && InnerIndex(Parent(m)) < Pow2(depth) - 1
  {
    hide Index;
    if InTree(m, depth) {
      BelowRoot(m, depth);
      ParentSlot(m, depth);
    } else {
      OutsideStaysOutside(m, depth);
    }
  }

  lemma AtRoot(m: Node, depth: nat)
    requires Index(m) == Index(Root(depth))
    ensures m == Root(depth) && InTree(m, depth)
  {
    hide Index, NodeAt, Level;
    IndexRoundTrip(m);
    IndexRoundTrip(Root(depth));
  }

  /** However long the walk from a leaf outside the tree, it does not meet the root. */
  lemma NeverMeetsRoot(i: nat, depth: nat, k: nat)
    requires i >= Pow2(depth)
    ensures Index(Anc(i, k)) != Index(Root(depth))
  {
    hide Index;
    LeafOutside(i, depth, k);
    if Index(Anc(i, k)) == Index(Root(depth)) {
      AtRoot(Anc(i, k), depth);
    }
  }

  lemma {:induction false} LeafOutside(i: nat, depth: nat, k: nat)
    requires i >= Pow2(depth)
    ensures !InTree(Anc(i, k), depth)
  {
    if k > 0 {
      LeafOutside(i, depth, k - 1);
      OutsideStaysOutside(Anc(i, k - 1), depth);
    }
  }

  lemma {:induction false} ShrIsAncestor(i: nat, k: nat)
    ensures Shr(2 * i, k + 1) == Anc(i, k).pos
  {
    if k == 0 {
      assert Shr(2 * i, 1) == Shr(i, 0);
    } else {
      ShrIsAncestor(i, k - 1);
      ShrStep(2 * i, k);
    }
  }

  lemma {:induction false} IndexClosedForm(n: Node)
    ensures Index(n) == Shl(n.pos, n.level + 1) + Shl(1, n.level) - 1
    decreases n.level
  {
    if n.level == 0 {
      assert Shl(n.pos, 1) == 2 * Shl(n.pos, 0);
    } else {
      IndexClosedForm(Node(n.level - 1, n.pos));
    }
  }

  /** Shifting two leaf indices right makes them equal one step past the level
      where the leaves meet. */
  lemma ShiftsAgree(i: nat, j: nat, k: nat)
    requires i != j
    ensures Shr(2 * i, k) == Shr(2 * j, k) <==> k >= MeetLevel(i, j) + 1
  {
    if k > 0 {
      ShrIsAncestor(i, k - 1);
      ShrIsAncestor(j, k - 1);
      MeetLevelIsFirst(i, j, k - 1);
    }
  }

  lemma MeetInTree(i: nat, j: nat, depth: nat)
    requires i < Pow2(depth) && j < Pow2(depth)
    ensures MeetLevel(i, j) <= depth
  {
    AncRoot(i, depth);
    AncRoot(j, depth);
    MeetLevelIsFirst(i, j, depth);
  }

  /** `lowest_common_ancestor` of two distinct leaves: the node where their paths
      first meet. */
  method LowestCommonAncestor(i: nat, j: nat, ghost depth: nat) returns (lca: nat)
    requires i != j && i < Pow2(depth) && j < Pow2(depth) && depth <= 30
    ensures lca == InnerIndex(Anc(i, MeetLevel(i, j)))
  {
    Pow2Constants();
    Pow2Monotone(depth + 1, 31);
    var x: u32, y: u32 := 2 * i, 2 * j;
    ShiftsAgree(i, j, 1);
    // Both leaves have level 0, so the early returns of the code compare x >> 1 with y >> 1.
    assert Shr(x, 1) != Shr(y, 1);
    var xn, yn := x, y;
    var k := 0;
    ghost var meet := MeetLevel(i, j);
    MeetInTree(i, j, depth);
    while xn != yn
      invariant xn == Shr(x, k) && yn == Shr(y, k)
      invariant k <= meet + 1 <= depth + 1
      decreases depth + 1 - k
    {
      ShiftsAgree(i, j, k);
      ShrStep(x, k);
      ShrStep(y, k);
      xn := xn / 2;
      yn := yn / 2;
      k := k + 1;
    }
    ShiftsAgree(i, j, k);
    lca := IndexFromShift(i, k - 1, xn, depth);
  }

  /** The closing expression of `lowest_common_ancestor`. */
  method IndexFromShift(ghost i: nat, k: nat, pos: nat, ghost depth: nat) returns (lca: nat)
    requires 0 < k <= depth <= 30 && i < Pow2(depth) && pos == Shr(2 * i, k + 1)
    ensures lca == InnerIndex(Anc(i, k))
  {
    ShrIsAncestor(i, k);
    IndexClosedForm(Anc(i, k));
    AncInTree(i, k, depth);
    IndexInBounds(Anc(i, k), depth);
    Pow2Constants();
    Pow2Monotone(depth + 1, 31);
    var index: u32 := Shl(pos, k + 1) + Shl(1, k) - 1;
    lca := (index - 1) / 2;
  }
}
