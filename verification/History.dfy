/** Histories: everything the members of a group ever did, with the causal order.

    Each operation was created on some replica, which had applied other operations in
    some order; that order is all an operation's creator knew. A replica is described by
    the order in which it applied operations, so a history covers every distributed run. */
module History {
  import opened Seqs
  import opened Nodes
  import opened Crypto
  import opened KeyTree
  import opened WellFormed
  import opened Operations

  /** One operation, the order in which its creator had applied earlier operations, and
      the seed of the fresh leaf secret it introduces (unused by a remove). */
  datatype Event = Event(op: Op, order: seq<Digest>, seed: nat)

  datatype History = History(root: Digest, events: map<Digest, Event>)

  ghost predicate Known(h: History, order: seq<Digest>) {
    forall d :: d in order ==> d in h.events
  }

  /** The tree of a replica that applied operations in the given order. */
  ghost function Run(h: History, order: seq<Digest>): (t: Tree)
    requires Known(h, order)
    ensures Linked(t)
  {
    if order == [] then EmptyTree()
    else Step(Run(h, order[..|order| - 1]), h.events[order[|order| - 1]].op)
  }

  /** Everything causally before an operation: all its creator had applied. */
  ghost function Past(h: History, d: Digest): set<Digest>
    requires d in h.events
  {
    ToSet(h.events[d].order)
  }

  /** An order a replica may apply operations in: from the initial add, each operation
      once and only after its causal past. */
  ghost predicate Causal(h: History, order: seq<Digest>) {
    && order != [] && order[0] == h.root
    && Distinct(order) && Known(h, order)
    && forall j :: 0 <= j < |order| ==> Past(h, order[j]) <= ToSet(order[..j])
  }

  /** The operation is one the code can create on tree `t`. */
  ghost predicate CreatedFrom(e: Event, t: Tree)
    requires Linked(t)
  {
    match e.op
    case Add(id, pk, leafIndex, _, _) => id !in t.ids && pk == ShareKey(Fresh(e.seed)) && leafIndex == t.nextLeaf
    case Remove(id, leafIdx, _, _) => id in t.ids && |t.ids| != 1 && leafIdx == t.ids[id]
    case Update(id, change, _) =>
      id in t.ids && exists draw: nat -> Secret :: change == EncryptedChange(t, id, Fresh(e.seed), draw)
  }

  ghost predicate ValidEvent(h: History, d: Digest)
    requires d in h.events
  {
    var e := h.events[d];
    if d == h.root then e.order == [] && e.op.Add? && CreatedFrom(e, EmptyTree())
    else Causal(h, e.order) && d !in e.order && CreatedFrom(e, Run(h, e.order))
  }

  ghost predicate Comparable(h: History, a: Digest, b: Digest)
    requires a in h.events && b in h.events
  {
    a == b || a in Past(h, b) || b in Past(h, a)
  }

  predicate SameAuthor(a: Op, b: Op) {
    a.Update? && b.Update? && a.memberId == b.memberId
  }

  predicate BothKeyed(a: Op, b: Op) {
    !a.Remove? && !b.Remove?
  }

  /** A history of the group. Only updates are concurrent: every membership change is
      causally comparable with every other operation. A member's own updates are ordered,
      and fresh secrets are distinct. */
  ghost predicate Valid(h: History) {
    && h.root in h.events
    && (forall d {:trigger ValidEvent(h, d)} :: d in h.events ==> ValidEvent(h, d))
    && (forall m, d {:trigger Comparable(h, m, d)} ::
          m in h.events && d in h.events && IsMembership(h.events[m].op) ==> Comparable(h, m, d))
    && (forall a, b {:trigger Comparable(h, a, b)} ::
          a in h.events && b in h.events && SameAuthor(h.events[a].op, h.events[b].op) ==> Comparable(h, a, b))
    && (forall a, b {:trigger BothKeyed(h.events[a].op, h.events[b].op)} ::
          a in h.events && b in h.events && a != b && BothKeyed(h.events[a].op, h.events[b].op) ==>
            h.events[a].seed != h.events[b].seed)
  }

  // ----- Causality -----

  lemma CausalPrefix(h: History, order: seq<Digest>, k: nat)
    requires Causal(h, order) && 0 < k <= |order|
    ensures Causal(h, order[..k])
  {
    forall j | 0 <= j < k
      ensures Past(h, order[..k][j]) <= ToSet(order[..k][..j])
    {
      assert order[..k][..j] == order[..j];
    }
  }

  lemma PastIsKnown(h: History, d: Digest)
    requires Valid(h) && d in h.events
    ensures Known(h, h.events[d].order) && d !in Past(h, d)
  {
    assert ValidEvent(h, d);
  }

  /** The causal past is closed. */
  lemma PastIsClosed(h: History, d: Digest, p: Digest)
    requires Valid(h) && d in h.events && p in Past(h, d)
    ensures p in h.events && Past(h, p) <= Past(h, d) && d !in Past(h, p)
  {
    assert ValidEvent(h, d);
    var order := h.events[d].order;
    var j :| 0 <= j < |order| && order[j] == p;
    assert ToSet(order[..j]) <= ToSet(order);
  }

  /** A set of operations a replica can have applied. */
  ghost predicate Closed(h: History, ds: set<Digest>) {
    forall d :: d in ds ==> d in h.events && Past(h, d) <= ds
  }

  lemma CausalIsClosed(h: History, order: seq<Digest>)
    requires Causal(h, order)
    ensures Closed(h, ToSet(order))
  {
    forall d | d in order
      ensures Past(h, d) <= ToSet(order)
    {
      var j :| 0 <= j < |order| && order[j] == d;
      assert ToSet(order[..j]) <= ToSet(order);
    }
  }

  /** What an operation's creator had applied is no longer than any order that contains
      the operation's past. */
  lemma PastIsShorter(h: History, d: Digest, ds: seq<Digest>)
    requires Valid(h) && d in h.events && Distinct(ds) && Past(h, d) <= ToSet(ds)
    ensures |h.events[d].order| <= |ds|
  {
    assert ValidEvent(h, d);
    DistinctCount(h.events[d].order);
    DistinctCount(ds);
    SubsetCount(Past(h, d), ToSet(ds));
  }

  // ----- Which operations reach which nodes -----

  /** The leaves whose paths an operation rewrites or blanks. */
  ghost function Touched(h: History, d: Digest): set<nat>
    requires d in h.events && Known(h, h.events[d].order)
  {
    match h.events[d].op
    case Add(_, _, leafIndex, _, _) => {leafIndex}
    case Update(_, change, _) => {change.leafIdx}
    case Remove(id, leafIdx, _, _) => RemovedLeaves(Run(h, h.events[d].order), leafIdx)
  }

  ghost predicate Through(h: History, d: Digest, v: Node)
    requires d in h.events && Known(h, h.events[d].order)
  {
    exists i :: i in Touched(h, d) && Under(i, v)
  }

  /** The operations through `v` that no other applied operation through `v` follows. */
  ghost function Live(h: History, ds: set<Digest>, v: Node): set<Digest>
    requires Valid(h) && Closed(h, ds)
  {
    set d | d in ds && IsLive(h, ds, v, d)
  }

  ghost predicate IsLive(h: History, ds: set<Digest>, v: Node, d: Digest)
    requires Valid(h) && Closed(h, ds) && d in ds
  {
    && (PastIsKnown(h, d); Through(h, d, v))
    && forall p :: p in ds && (PastIsKnown(h, p); Through(h, p, v)) ==> d !in Past(h, p)
  }

  /** Applying one more operation supersedes the live operations in its past, at the nodes
      it passes through, and changes nothing elsewhere. */
  lemma LiveStep(h: History, ds: set<Digest>, b: Digest, v: Node)
    requires Valid(h) && Closed(h, ds) && b in h.events && b !in ds && Past(h, b) <= ds
    ensures Closed(h, ds + {b}) && Known(h, h.events[b].order)
    ensures Through(h, b, v) ==> Live(h, ds + {b}, v) == (Live(h, ds, v) - Past(h, b)) + {b}
    ensures !Through(h, b, v) ==> Live(h, ds + {b}, v) == Live(h, ds, v)
  {
    hide Valid, Through;
    PastIsKnown(h, b);
    assert Closed(h, ds + {b});
    forall d | d in ds
      ensures IsLive(h, ds + {b}, v, d) <==> IsLive(h, ds, v, d) && !(Through(h, b, v) && d in Past(h, b))
    {
      LiveKept(h, ds, b, v, d);
    }
    assert Through(h, b, v) ==> IsLive(h, ds + {b}, v, b);
  }

  lemma LiveKept(h: History, ds: set<Digest>, b: Digest, v: Node, d: Digest)
    requires Valid(h) && Closed(h, ds) && b in h.events && b !in ds && Past(h, b) <= ds && d in ds
    requires Closed(h, ds + {b}) && Known(h, h.events[b].order)
    ensures IsLive(h, ds + {b}, v, d) <==> IsLive(h, ds, v, d) && !(Through(h, b, v) && d in Past(h, b))
  {
    hide Valid, Through;
    assert forall p :: p in ds ==> p in ds + {b};
    assert b in ds + {b};
  }

  /** If a single operation is live at a node, it follows every other one through it. */
  lemma {:induction false} OnlyLiveIsLast(h: History, ds: set<Digest>, v: Node, a: Digest, d: Digest)
    requires Valid(h) && Closed(h, ds) && Live(h, ds, v) == {a}
    requires d in ds && (PastIsKnown(h, d); Through(h, d, v))
    ensures d == a || d in Past(h, a)
    decreases |ds| - |Past(h, d)|
  {
    if !IsLive(h, ds, v, d) {
      var p :| p in ds && (PastIsKnown(h, p); Through(h, p, v)) && d in Past(h, p);
      PastIsClosed(h, p, d);
      assert Past(h, d) + {d} <= Past(h, p);
      SubsetCount(Past(h, d) + {d}, Past(h, p));
      SubsetCount(Past(h, p), ds);
      PastIsKnown(h, d);
      OnlyLiveIsLast(h, ds, v, a, p);
      if p != a {
        PastIsClosed(h, a, p);
      }
    } else {
      assert d in Live(h, ds, v);
    }
  }
}
