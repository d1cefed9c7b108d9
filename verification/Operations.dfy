/** CGKA operations and what applying one does to the tree. */
module Operations {
  import opened Results
  import opened Nodes
  import opened Crypto
  import opened NodeKeys
  import opened KeyTree
  import opened PathUpdate
  import opened WellFormed

  /** Content hash of a signed operation; distinct operations have distinct digests. */
  type Digest = nat

  datatype Op =
    | Add(addedId: MemberId, pk: ShareKey, leafIndex: nat, preds: set<Digest>, addPreds: set<Digest>)
    | Remove(id: MemberId, leafIdx: nat, removedKeys: seq<ShareKey>, preds: set<Digest>)
    | Update(memberId: MemberId, change: PathChange, preds: set<Digest>)

  predicate IsMembership(op: Op) {
    op.Add? || op.Remove?
  }

  /** The tree part of `apply_operation`. */
  ghost function ApplyOp(t: Tree, op: Op): (r: Result<Tree>)
    requires Linked(t)
    ensures r.Ok? ==> Linked(r.value)
  {
    match op
    case Add(id, pk, _, _, _) => PushLeafLinked(t, id, Single(pk)); Ok(PushLeaf(t, id, Single(pk)))
    case Remove(id, _, _, _) =>
      if id in t.ids then RemoveLeafLinked(t, id); RemoveId(t, id) else RemoveId(t, id)
    case Update(_, change, _) =>
      var stop := PathStop(t, change);
      if stop.Some? then Err(stop.value) else ApplyPathLinked(t, change); Ok(ApplyPath(t, change))
  }

  /** An update whose path climbs from a leaf of the tree applies. */
  lemma ClimbingApplies(t: Tree, op: Op)
    requires Linked(t) && op.Update? && Climbs(op.change.path, op.change.leafIdx) && op.change.leafIdx < Pow2(t.depth)
    ensures ApplyOp(t, op) == Ok(ApplyPath(t, op.change)) && Step(t, op) == ApplyPath(t, op.change)
  {
    hide ApplyPath, Climbs, PathStop;
    ClimbsInside(t, op.change);
  }

  /** So does a member's own update, in the tree it was made in. */
  lemma OwnUpdateApplies(t: Tree, id: MemberId, sk: Secret, draw: nat -> Secret, ps: set<Digest>)
    requires Linked(t) && id in t.ids && t.ids[id] < Pow2(t.depth) && t.depth > 0
    ensures t.ids[id] in t.leaves
    ensures ApplyOp(t, Update(id, EncryptedChange(t, id, sk, draw), ps)) == Ok(EncryptedTree(t, id, sk, draw))
  {
    var op := Update(id, EncryptedChange(t, id, sk, draw), ps);
    NewPathClimbs(t, t.ids[id], sk, draw, t.depth);
    assert Climbs(op.change.path, op.change.leafIdx);
    hide ApplyOp, ApplyPath, EncryptedTree, EncryptedChange, Climbs;
    SenderReceiverAgree(t, id, sk, draw);
    ClimbingApplies(t, op);
  }

  /** A failed operation leaves the tree as it was. */
  ghost function Step(t: Tree, op: Op): (u: Tree)
    requires Linked(t)
    ensures Linked(u)
  {
    match ApplyOp(t, op)
    case Ok(u) => u
    case Err(_) => t
  }
}
