/** Leaves with several keys: an update that reaches its author's new leaf, and whom the
    outcome keeps from updating. */
module LateUpdates {
  import opened Seqs
  import opened Results
  import opened Nodes
  import opened Crypto
  import opened NodeKeys
  import opened KeyTree
  import opened PathUpdate
  import opened WellFormed
  import opened Operations
  import opened Resolutions
  import opened Normalise
  import opened Epochs
  import opened Graph
  import opened Replay
  import opened ReplicaSteps
  import opened EpochOutcomes
  import opened Continuation

  // ----- Who can update -----

  /** A member's own update succeeds exactly when what it holds replays, it is in the tree,
      and no leaf with several keys is exposed to it. */
  lemma OwnUpdateSucceedsIff(s: State, sk: Secret, draw: nat -> Secret, d: Digest, s': State, r: Result<(Secret, Op)>)
    requires Sensible(s) && UpdatesOwn(s, sk, draw, d, s', r) && (Base(s).Ok? ==> Settled(Base(s).value))
    ensures r.Ok? <==>
            && Base(s).Ok? && s.owner in Base(s).value.ids
            && var t := Base(s).value; forall j :: 0 <= j < Pow2(t.depth) ==> !Exposed(t, t.ids[s.owner], j)
  {
    hide SoundGraph, Down, OutcomeFor, EncryptedChange, EncryptedTree, ApplyOp, CanEncrypt, Exposed, RatchetN;
    if Base(s).Ok? && s.owner in Base(s).value.ids {
      CanEncryptIff(Base(s).value, Base(s).value.ids[s.owner]);
    }
  }

  /** The leaf holds several keys and there is no key above it. */
  ghost predicate TwoKeyed(u: Tree, n: nat) {
    n in u.leaves && u.leaves[n].pk.Conflict? && forall v :: v in u.inner ==> !Under(n, v)
  }

  /** Such a leaf keeps everybody else from updating. */
  lemma OthersStopped(v: Tree, m: MemberId, id: MemberId)
    requires Linked(v) && v.nextLeaf <= Pow2(v.depth) && m in v.ids && TwoKeyed(v, v.ids[m]) && id in v.ids && id != m
    ensures !CanEncrypt(v, v.ids[id])
  {
    hide CanEncrypt;
    var i, n := v.ids[id], v.ids[m];
    assert v.leaves[i].id == id && v.leaves[n].id == m;
    assert Exposed(v, i, n) by {
      forall k | 0 < k < MeetLevel(i, n)
        ensures Skip(v, Anc(n, k))
      {
        assert Under(n, Anc(n, k));
      }
    }
    ExposedLeafStops(v, i, n);
  }

  // ----- An update for another slot -----

  lemma MergedHasBoth(pk: ShareKey, key: NodeKey, removed: set<ShareKey>)
    requires pk !in removed
    ensures MergeKey(Single(pk), key, removed).Conflict?
  {
    SortKeysKeepsAll(Keys(key) + [pk]);
  }

  /** An update made for another slot, which did not see the key at its author's leaf, leaves
      both keys there. */
  lemma LateUpdate(t: Tree, c: PathChange, pk: ShareKey)
    requires Linked(t) && c.leafId in t.ids && c.leafIdx != t.ids[c.leafId]
    requires t.leaves[t.ids[c.leafId]].pk == Single(pk) && pk !in ToSet(c.removed)
    ensures TwoKeyed(ApplyPath(t, c), t.ids[c.leafId]) && ApplyPath(t, c).ids == t.ids
  {
    hide MergeKey;
    MergedHasBoth(pk, c.leafPk, ToSet(c.removed));
  }

  predicate On(op: Op, m: MemberId) {
    match op
    case Add(id, _, _, _, _) => id == m
    case Remove(id, _, _, _) => id == m
    case Update(_, c, _) => c.leafId == m
  }

  /** Operations on others leave a member's slot and leaf alone. */
  lemma OthersLeaveAlone(t: Tree, op: Op, m: MemberId)
    requires Linked(t) && m in t.ids && !On(op, m) && ApplyOp(t, op).Ok?
    ensures var u := ApplyOp(t, op).value;
            && m in u.ids && u.ids[m] == t.ids[m] && t.ids[m] in u.leaves && u.leaves[t.ids[m]] == t.leaves[t.ids[m]]
            && (!op.Update? && TwoKeyed(t, t.ids[m]) ==> TwoKeyed(u, t.ids[m]))
  {
    hide MergePath, MergeKey, Trim, HasRootKey, PathStop;
  }

  // ----- In an epoch -----

  /** The tree before the operation at position `k` of the epoch. */
  ghost function At(ops: map<Digest, Op>, steps: seq<Change>, epoch: seq<Digest>, k: nat): (r: Result<Tree>)
    requires k <= |epoch| && Covered(ops, steps + ApplyEach(epoch))
    ensures r.Ok? ==> Linked(r.value)
  {
    EachPrefix(epoch, k);
    CoveredPrefix(ops, steps + ApplyEach(epoch[..k]), steps + ApplyEach(epoch));
    RunSteps(ops, steps + ApplyEach(epoch[..k]))
  }

  lemma NextAt(ops: map<Digest, Op>, steps: seq<Change>, epoch: seq<Digest>, k: nat)
    requires k < |epoch| && Covered(ops, steps + ApplyEach(epoch)) && epoch[k] in ops
    ensures var t := At(ops, steps, epoch, k);
            At(ops, steps, epoch, k + 1) == if t.Err? then t else ApplyOp(t.value, ops[epoch[k]])
  {
    hide RunSteps, ApplyOp, Covered, ApplyEach;
    EachSnoc(epoch, k);
    EachPrefix(epoch, k);
    CoveredPrefix(ops, steps + ApplyEach(epoch[..k]), steps + ApplyEach(epoch));
    RunStepsSnoc(ops, steps + ApplyEach(epoch[..k]), Apply(epoch[k]));
    assert steps + ApplyEach(epoch[..k + 1]) == (steps + ApplyEach(epoch[..k])) + [Apply(epoch[k])];
  }

  /** The epoch adds `m` at position `j`, and at position `l` applies an update `m` made
      without having seen that add, for another slot. Nothing else in between or later
      concerns `m`, and there is no later update. */
  ghost predicate UpdatesLate(ops: map<Digest, Op>, epoch: seq<Digest>, m: MemberId, slot: nat, j: nat, l: nat) {
    && j < l < |epoch| && (forall d :: d in epoch ==> d in ops)
    && var add, up := ops[epoch[j]], ops[epoch[l]];
       && add.Add? && add.addedId == m && up.Update? && up.change.leafId == m
       && add.pk !in ToSet(up.change.removed) && up.change.leafIdx != slot
       && (forall k :: j < k < |epoch| && k != l ==> !On(ops[epoch[k]], m))
       && (forall k :: l < k < |epoch| ==> !ops[epoch[k]].Update?)
  }

  lemma {:induction false} LeafFrom(ops: map<Digest, Op>, steps: seq<Change>, epoch: seq<Digest>, m: MemberId,
                                    slot: nat, j: nat, l: nat, k: nat)
    requires Covered(ops, steps + ApplyEach(epoch)) && UpdatesLate(ops, epoch, m, slot, j, l) && j < k <= |epoch|
    requires At(ops, steps, epoch, j).Ok? && At(ops, steps, epoch, j).value.nextLeaf == slot
    requires At(ops, steps, epoch, k).Ok?
    ensures var t := At(ops, steps, epoch, k).value;
            && m in t.ids && t.ids[m] == slot && slot in t.leaves
            && (if k <= l then t.leaves[slot].pk == Single(ops[epoch[j]].pk) else TwoKeyed(t, slot))
  {
    hide At, ApplyOp, TwoKeyed, Covered, Linked;
    NextAt(ops, steps, epoch, k - 1);
    var op := ops[epoch[k - 1]];
    if k == j + 1 {
      JustAdded(At(ops, steps, epoch, j).value, op);
    } else {
      LeafFrom(ops, steps, epoch, m, slot, j, l, k - 1);
      var t := At(ops, steps, epoch, k - 1).value;
      if k - 1 == l {
        JustUpdated(t, op, ops[epoch[j]].pk);
      } else {
        OthersLeaveAlone(t, op, m);
      }
    }
  }

  lemma JustAdded(t: Tree, op: Op)
    requires Linked(t) && op.Add?
    ensures var u := ApplyOp(t, op);
            && u.Ok? && op.addedId in u.value.ids && u.value.ids[op.addedId] == t.nextLeaf
            && t.nextLeaf in u.value.leaves && u.value.leaves[t.nextLeaf].pk == Single(op.pk)
  {}

  lemma JustUpdated(t: Tree, op: Op, pk: ShareKey)
    requires Linked(t) && op.Update? && op.change.leafId in t.ids && op.change.leafIdx != t.ids[op.change.leafId]
    requires t.leaves[t.ids[op.change.leafId]].pk == Single(pk) && pk !in ToSet(op.change.removed)
    requires ApplyOp(t, op).Ok?
    ensures var u := ApplyOp(t, op).value;
            u.ids == t.ids && t.ids[op.change.leafId] in u.leaves && TwoKeyed(u, t.ids[op.change.leafId])
  {
    hide ApplyPath, PathStop;
    LateUpdate(t, op.change, pk);
  }

  /** Sorting moves such a leaf with its keys, if at all. */
  lemma TwoKeyedSorted(u: Tree, m: MemberId, added: set<MemberId>, removed: set<(MemberId, nat)>)
    requires Tidy(u) && (forall i :: i in Slots(removed) ==> i !in u.leaves) && m in u.ids && TwoKeyed(u, u.ids[m])
    ensures var v := SortLeaves(u, added, removed); Tidy(v) && m in v.ids && TwoKeyed(v, v.ids[m])
  {
    hide SortLeaves, Range;
    var lo := SortLeavesMeans(u, added, removed);
    SortLeavesTidy(u, added, removed);
    var v := SortLeaves(u, added, removed);
    assert HasLeaf(u, u.leaves[u.ids[m]]);
    assert HasLeaf(v, u.leaves[u.ids[m]]);
    var i :| i in v.leaves && v.leaves[i] == u.leaves[u.ids[m]];
    assert v.ids[m] == i;
    if i < lo {
      KeptBelow(u, lo, v, i);
      assert u.ids[m] == i;
    } else {
      assert i in Range(lo, u.nextLeaf);
    }
  }

  /** An epoch that adds a member and later applies an update that member made for another
      slot, without having seen the add, leaves a tree in which nobody else can update. */
  lemma LateUpdateInEpoch(ops: map<Digest, Op>, steps: seq<Change>, epoch: seq<Digest>, m: MemberId, slot: nat,
                          j: nat, l: nat)
    requires UpdatesLate(ops, epoch, m, slot, j, l) && Covered(ops, steps) && Covered(ops, steps + ApplyEach(epoch))
    requires At(ops, steps, epoch, j).Ok? && At(ops, steps, epoch, j).value.nextLeaf == slot
    requires At(ops, steps, epoch, |epoch|).Ok? && Tidy(At(ops, steps, epoch, |epoch|).value)
    requires Covered(ops, steps + EpochSteps(ops, epoch)) && RunSteps(ops, steps + EpochSteps(ops, epoch)).Ok?
    ensures var v := RunSteps(ops, steps + EpochSteps(ops, epoch)).value;
            m in v.ids && TwoKeyed(v, v.ids[m]) && forall id :: id in v.ids && id != m ==> !CanEncrypt(v, v.ids[id])
  {
    hide RunSteps, ApplyEach, SortLeaves, TwoKeyed, CanEncrypt, Tidy, Linked, Covered;
    LeafFrom(ops, steps, epoch, m, slot, j, l, |epoch|);
    assert epoch[..|epoch|] == epoch;
    var c := Sort(AddedIn(ops, epoch), RemovedIn(ops, epoch));
    assert epoch[j] in epoch && ops[epoch[j]].Add?;
    assert steps + EpochSteps(ops, epoch) == (steps + ApplyEach(epoch)) + [c];
    RunStepsSnoc(ops, steps + ApplyEach(epoch), c);
    var u := RunSteps(ops, steps + ApplyEach(epoch)).value;
    TwoKeyedSorted(u, m, c.added, c.removed);
    var v := RunSteps(ops, steps + EpochSteps(ops, epoch)).value;
    RunStepsSettled(ops, steps + EpochSteps(ops, epoch));
    forall id | id in v.ids && id != m
      ensures !CanEncrypt(v, v.ids[id])
    {
      OthersStopped(v, m, id);
    }
  }

  // ----- A member removed and added back -----

  /** A member is removed and added back, and meanwhile updates twice, for its old slot. */
  ghost predicate Readding(r: Roster, rm: Op, up1: Op, add: Op, up2: Op) {
    && rm.Remove? && up1.Update? && add.Add? && up2.Update? && rm.id in r.ids && |r.ids| > 1
    && r.nextLeaf <= Pow2(r.depth) && r.ids[rm.id] + 1 < r.nextLeaf && r.nextLeaf - 1 in r.slots
    && rm.leafIdx == r.ids[rm.id] && add.addedId == rm.id
    && MadeFor(up1.change, rm.id, r.ids[rm.id]) && MadeFor(up2.change, rm.id, r.ids[rm.id])
    && add.pk !in ToSet(up2.change.removed)
  }

  ghost predicate MadeFor(c: PathChange, m: MemberId, slot: nat) {
    c.leafId == m && c.leafIdx == slot && Climbs(c.path, slot)
  }

  lemma ReaddKinds(r: Roster, rm: Op, up1: Op, add: Op, up2: Op)
    requires Readding(r, rm, up1, add, up2)
    ensures rm.Remove? && up1.Update? && add.Add? && up2.Update? && rm.id in r.ids && rm.leafIdx == r.ids[rm.id]
    ensures add.addedId == rm.id && up2.change.leafId == rm.id && up2.change.leafIdx == rm.leafIdx
    ensures rm.leafIdx != r.nextLeaf && add.pk !in ToSet(up2.change.removed)
  {}

  /** Without keys: the removal and the first update leave the slot free in either order. */
  lemma FirstLayer(r: Roster, rm: Op, up1: Op, add: Op, up2: Op)
    requires Readding(r, rm, up1, add, up2)
    ensures Accepts(r, rm) && Accepts(After(r, rm), up1) && After(After(r, rm), up1) == After(r, rm)
    ensures Accepts(r, up1) && After(r, up1) == r
    ensures var r1 := After(r, rm);
            && r1.nextLeaf == r.nextLeaf && r1.depth == r.depth && r1.ids == r.ids - {rm.id}
            && rm.leafIdx !in r1.slots
  {
    ClimbStays(r, up1.change);
  }

  /** So do the add and the second update with the new slot. */
  lemma SecondLayer(r: Roster, rm: Op, up1: Op, add: Op, up2: Op)
    requires Readding(r, rm, up1, add, up2) && Accepts(r, rm)
    ensures var r1 := After(r, rm); var r2 := Seat(r1, rm.id);
            && Accepts(r1, add) && After(r1, add) == r2 && Accepts(r2, up2) && After(r2, up2) == r2
            && Accepts(r1, up2) && After(r1, up2) == r1
            && rm.leafIdx < Pow2(r2.depth) && rm.leafIdx !in r2.slots
            && rm.id in r2.ids && r2.ids[rm.id] == r.nextLeaf && r2.ids.Keys == r.ids.Keys
  {
    FirstLayer(r, rm, up1, add, up2);
    assert Pow2(r.depth) < Pow2(r.depth + 1);
  }

  lemma Pairwise(ops: map<Digest, Op>, r: Roster, x: Digest, y: Digest, p: Digest, q: Digest)
    requires {x, y, p, q} <= ops.Keys && Accepts(r, ops[x]) && Accepts(After(r, ops[x]), ops[y])
    requires var r1 := After(After(r, ops[x]), ops[y]); Accepts(r1, ops[p]) && Accepts(After(r1, ops[p]), ops[q])
    ensures forall d :: d in [x, y, p, q] ==> d in ops
    ensures var r1 := After(After(r, ops[x]), ops[y]);
            && RosterAfter(ops, r, [x, y]) == Some(r1)
            && RosterAfter(ops, r, [x, y, p, q]) == Some(After(After(r1, ops[p]), ops[q]))
  {
    hide Accepts, After;
    var e := [x, y, p, q];
    assert e[..3] == [x, y, p] && [x, y, p][..2] == [x, y] && [x, y][..1] == [x] && [x][..0] == [];
    assert RosterAfter(ops, r, [x]) == Some(After(r, ops[x]));
    assert RosterAfter(ops, r, [x, y]) == Some(After(After(r, ops[x]), ops[y]));
    var r1 := After(After(r, ops[x]), ops[y]);
    assert RosterAfter(ops, r, [x, y, p]) == Some(After(r1, ops[p]));
  }

  /** The four operations in the order the sort lists them. */
  function Listed(rm: Digest, up1: Digest, add: Digest, up2: Digest): seq<Digest> {
    (if rm < up1 then [rm, up1] else [up1, rm]) + (if add < up2 then [add, up2] else [up2, add])
  }

  lemma ListedAccepted(ops: map<Digest, Op>, r: Roster, rm: Digest, up1: Digest, add: Digest, up2: Digest)
    requires {rm, up1, add, up2} <= ops.Keys && Readding(r, ops[rm], ops[up1], ops[add], ops[up2])
    ensures var e := Listed(rm, up1, add, up2);
            && (forall d :: d in e ==> d in ops) && |e| == 4 && e[..2] == (if rm < up1 then [rm, up1] else [up1, rm])
            && Accepts(r, ops[rm]) && RosterAfter(ops, r, e[..2]) == Some(After(r, ops[rm]))
            && RosterAfter(ops, r, e) == Some(Seat(After(r, ops[rm]), ops[rm].id))
  {
    FirstLayer(r, ops[rm], ops[up1], ops[add], ops[up2]);
    SecondLayer(r, ops[rm], ops[up1], ops[add], ops[up2]);
    hide Readding, Accepts, After, Seat, RosterAfter;
    var x, y := if rm < up1 then rm else up1, if rm < up1 then up1 else rm;
    var p, q := if add < up2 then add else up2, if add < up2 then up2 else add;
    var e := Listed(rm, up1, add, up2);
    assert e == [x, y, p, q] && e[..2] == [x, y];
    Pairwise(ops, r, x, y, p, q);
  }

  lemma ListedMembership(ops: map<Digest, Op>, rm: Digest, up1: Digest, add: Digest, up2: Digest)
    requires {rm, up1, add, up2} <= ops.Keys && ops[rm].Remove? && ops[up1].Update? && ops[add].Add? && ops[up2].Update?
    requires ops[add].addedId == ops[rm].id
    ensures var e := Listed(rm, up1, add, up2);
            && (forall d :: d in e <==> d in {rm, up1, add, up2}) && !AllUpdates(ops, e) && |e| == 4
            && AddedIn(ops, e) == {ops[rm].id} && RemovedIn(ops, e) == {(ops[rm].id, ops[rm].leafIdx)}
  {
    var e := Listed(rm, up1, add, up2);
    assert forall d :: d in e <==> d in {rm, up1, add, up2};
    assert rm in e && add in e;
  }

  lemma SortReadded(u: Tree, m: MemberId, l: nat)
    ensures var v := SortLeaves(u, {m}, {(m, l)});
            v.leaves == u.leaves - {l} && v.ids == u.ids && v.depth == u.depth && v.inner.Keys <= u.inner.Keys
  {
    assert Slots({(m, l)}) == {l} by {
      assert (m, l).1 == l;
    }
    assert RemovedIds({(m, l)}) == {m} by {
      assert (m, l).0 == m;
    }
    assert {m} - RemovedIds({(m, l)}) == {};
    assert SortById([]) == [];
  }

  /** Replaying the four operations succeeds; the member gets a new slot, and its leaf ends up
      with several keys exactly when the add sorts before the second update. */
  lemma ReaddedEpoch(ops: map<Digest, Op>, steps: seq<Change>, t: Tree, rm: Digest, up1: Digest, add: Digest,
                     up2: Digest) returns (v: Tree)
    requires Covered(ops, steps) && RunSteps(ops, steps) == Ok(t) && {rm, up1, add, up2} <= ops.Keys
    requires Readding(RosterOf(t), ops[rm], ops[up1], ops[add], ops[up2])
    ensures (forall d :: d in Listed(rm, up1, add, up2) ==> d in ops)
    ensures Covered(ops, steps + EpochSteps(ops, Listed(rm, up1, add, up2)))
    ensures RunSteps(ops, steps + EpochSteps(ops, Listed(rm, up1, add, up2))) == Ok(v)
    ensures var m := ops[rm].id; v.ids.Keys == t.ids.Keys && m in v.ids && (TwoKeyed(v, v.ids[m]) <==> add < up2)
  {
    hide Readding, Listed, RunSteps, ApplyEach, TwoKeyed, SortLeaves, RosterOf, Covered;
    var e, r := Listed(rm, up1, add, up2), RosterOf(t);
    ReaddKinds(r, ops[rm], ops[up1], ops[add], ops[up2]);
    ListedMembership(ops, rm, up1, add, up2);
    var u := BeforeSort(ops, steps, t, rm, up1, add, up2);
    LeafBeforeSort(ops, steps, t, e, rm, up1, add, up2, u);
    var m, l := ops[rm].id, ops[rm].leafIdx;
    var c := Sort({m}, {(m, l)});
    assert steps + EpochSteps(ops, e) == (steps + ApplyEach(e)) + [c];
    RunStepsSnoc(ops, steps + ApplyEach(e), c);
    SlotIsFree(u, m, l);
    SortReadded(u, m, l);
    v := SortLeaves(u, {m}, {(m, l)});
    KeyedAsBefore(u, v, l, v.ids[m]);
  }

  lemma BeforeSort(ops: map<Digest, Op>, steps: seq<Change>, t: Tree, rm: Digest, up1: Digest, add: Digest,
                   up2: Digest) returns (u: Tree)
    requires Covered(ops, steps) && RunSteps(ops, steps) == Ok(t) && {rm, up1, add, up2} <= ops.Keys
    requires Readding(RosterOf(t), ops[rm], ops[up1], ops[add], ops[up2])
    ensures var e := Listed(rm, up1, add, up2);
            && (forall d :: d in e ==> d in ops) && Covered(ops, steps + ApplyEach(e))
            && RunSteps(ops, steps + ApplyEach(e)) == Ok(u) && ops[rm].Remove? && u.ids.Keys == t.ids.Keys
            && ops[rm].leafIdx < Pow2(u.depth) && ops[rm].leafIdx !in u.leaves
  {
    var e, r := Listed(rm, up1, add, up2), RosterOf(t);
    ReaddKinds(r, ops[rm], ops[up1], ops[add], ops[up2]);
    ListedAccepted(ops, r, rm, up1, add, up2);
    SecondLayer(r, ops[rm], ops[up1], ops[add], ops[up2]);
    hide Readding, Accepts, After, Seat, RosterAfter, Listed, RunSteps, ApplyEach, RosterOf, Covered;
    EachIsCovered(ops, steps, e);
    OpsOnRoster(ops, steps, t, e);
    u := RunSteps(ops, steps + ApplyEach(e)).value;
    RosterFacts(u);
    RosterFacts(t);
  }

  lemma SlotIsFree(u: Tree, m: MemberId, l: nat)
    requires l < Pow2(u.depth) && l !in u.leaves
    ensures forall i :: i in Slots({(m, l)}) ==> i < Pow2(u.depth) && i !in u.leaves
  {}

  lemma KeyedAsBefore(u: Tree, v: Tree, l: nat, n: nat)
    requires v.leaves == u.leaves - {l} && l !in u.leaves && v.inner.Keys <= u.inner.Keys
    ensures TwoKeyed(u, n) ==> TwoKeyed(v, n)
    ensures n in u.leaves && !u.leaves[n].pk.Conflict? ==> !TwoKeyed(v, n)
  {
    assert v.leaves == u.leaves;
  }

  lemma LeafBeforeSort(ops: map<Digest, Op>, steps: seq<Change>, t: Tree, e: seq<Digest>, rm: Digest, up1: Digest,
                       add: Digest, up2: Digest, u: Tree)
    requires Covered(ops, steps) && RunSteps(ops, steps) == Ok(t) && {rm, up1, add, up2} <= ops.Keys
    requires Readding(RosterOf(t), ops[rm], ops[up1], ops[add], ops[up2]) && e == Listed(rm, up1, add, up2)
    requires Covered(ops, steps + ApplyEach(e)) && RunSteps(ops, steps + ApplyEach(e)) == Ok(u)
    ensures ops[rm].Remove? && var n := t.nextLeaf;
            && ops[rm].id in u.ids && u.ids[ops[rm].id] == n && n in u.leaves
            && (if add < up2 then TwoKeyed(u, n) else u.leaves[n].pk.Single?)
  {
    hide Readding, RunSteps, TwoKeyed, RosterOf, ApplyOp, Linked, At, ApplyEach, Listed;
    ReaddKinds(RosterOf(t), ops[rm], ops[up1], ops[add], ops[up2]);
    AfterFirst(ops, steps, t, e, rm, up1, add, up2);
    ListedOrder(rm, up1, add, up2);
    AtEnd(ops, steps, e);
    RosterFacts(t);
    if add < up2 {
      LeafFrom(ops, steps, e, ops[rm].id, t.nextLeaf, 2, 3, 4);
    } else {
      NextAt(ops, steps, e, 2);
      NextAt(ops, steps, e, 3);
      GoneUpdate(At(ops, steps, e, 2).value, ops[up2]);
      JustAdded(At(ops, steps, e, 3).value, ops[add]);
    }
  }

  lemma AtEnd(ops: map<Digest, Op>, steps: seq<Change>, e: seq<Digest>)
    requires Covered(ops, steps + ApplyEach(e))
    ensures At(ops, steps, e, |e|) == RunSteps(ops, steps + ApplyEach(e))
  {
    assert e[..|e|] == e;
  }

  lemma ListedOrder(rm: Digest, up1: Digest, add: Digest, up2: Digest)
    ensures var e := Listed(rm, up1, add, up2);
            && |e| == 4 && (forall d :: d in e ==> d in {rm, up1, add, up2})
            && (if add < up2 then e[2] == add && e[3] == up2 else e[2] == up2 && e[3] == add)
  {}

  /** Once the first layer is applied the member is gone and the next slot is as before. */
  lemma AfterFirst(ops: map<Digest, Op>, steps: seq<Change>, t: Tree, e: seq<Digest>, rm: Digest, up1: Digest,
                   add: Digest, up2: Digest)
    requires Covered(ops, steps) && RunSteps(ops, steps) == Ok(t) && {rm, up1, add, up2} <= ops.Keys
    requires Readding(RosterOf(t), ops[rm], ops[up1], ops[add], ops[up2]) && e == Listed(rm, up1, add, up2)
    requires Covered(ops, steps + ApplyEach(e))
    ensures |e| == 4 && ops[rm].Remove? && var out := At(ops, steps, e, 2);
            out.Ok? && out.value.nextLeaf == t.nextLeaf && ops[rm].id !in out.value.ids
  {
    var r := RosterOf(t);
    ReaddKinds(r, ops[rm], ops[up1], ops[add], ops[up2]);
    ListedAccepted(ops, r, rm, up1, add, up2);
    FirstLayer(r, ops[rm], ops[up1], ops[add], ops[up2]);
    hide Readding, Accepts, After, RosterAfter, Listed, RunSteps, RosterOf;
    EachPrefix(e, 2);
    CoveredPrefix(ops, steps + ApplyEach(e[..2]), steps + ApplyEach(e));
    hide ApplyEach, Covered;
    OpsOnRoster(ops, steps, t, e[..2]);
    RosterFacts(t);
    RosterFacts(At(ops, steps, e, 2).value);
  }

  lemma GoneUpdate(t: Tree, op: Op)
    requires Linked(t) && op.Update? && op.change.leafId !in t.ids
    ensures ApplyOp(t, op) == Ok(t)
  {}

  /** Whoever holds the four operations, and nothing else after the head, gets such a leaf
      exactly when the add's digest is below the second update's. */
  lemma ReaddedOutcome(g: OpGraph, g': OpGraph, h: Digest, t: Tree, rm: Digest, up1: Digest, add: Digest, up2: Digest)
    requires Fork(g, g', h, {rm, up1}, {add, up2}, add, up2) && Down(g.preds, g.ops.Keys)
    requires OutcomeFor(g, g.ops.Keys) == Ok(t)
    requires Readding(RosterOf(t), g'.ops[rm], g'.ops[up1], g'.ops[add], g'.ops[up2])
    ensures Down(g'.preds, g'.ops.Keys)
    ensures var out, m := OutcomeFor(g', g'.ops.Keys), g'.ops[rm].id;
            && out.Ok? && out.value.ids.Keys == t.ids.Keys && m in out.value.ids
            && (TwoKeyed(out.value, out.value.ids[m]) <==> add < up2)
  {
    ReaddKinds(RosterOf(t), g'.ops[rm], g'.ops[up1], g'.ops[add], g'.ops[up2]);
    hide Fork, Down, OutcomeFor, RosterOf, Readding, RunSteps, EpochSteps, Sorted, Listed, TwoKeyed;
    var steps := ForkContinues(g, g', h, t, {rm, up1}, {add, up2}, add, up2);
    AllDiffer(g, g', h, rm, up1, add, up2);
    SortedPairs(rm, up1, add, up2);
    var v := ReaddedEpoch(g'.ops, steps, t, rm, up1, add, up2);
  }

  lemma AllDiffer(g: OpGraph, g': OpGraph, h: Digest, rm: Digest, up1: Digest, add: Digest, up2: Digest)
    requires Fork(g, g', h, {rm, up1}, {add, up2}, add, up2)
    ensures rm != up1 && add != up2 && {rm, up1, add, up2} <= g'.ops.Keys
  {
    assert rm == up1 ==> |{rm, up1}| == 1;
  }

  lemma SortedPairs(rm: Digest, up1: Digest, add: Digest, up2: Digest)
    requires rm != up1 && add != up2
    ensures Sorted({rm, up1}) + Sorted({add, up2}) == Listed(rm, up1, add, up2)
  {
    hide Sorted;
    EitherPair(rm, up1);
    EitherPair(add, up2);
  }

  lemma EitherPair(x: nat, y: nat)
    requires x != y
    ensures Sorted({x, y}) == if x < y then [x, y] else [y, x]
  {
    hide Sorted;
    if x < y {
      SortedPair(x, y);
    } else {
      assert {x, y} == {y, x};
      SortedPair(y, x);
    }
  }

  /** After that nobody but the member itself can update: the update panics. */
  lemma OthersPanic(s: State, m: MemberId, sk: Secret, draw: nat -> Secret, d: Digest, s': State,
                    r: Result<(Secret, Op)>)
    requires Sensible(s) && Base(s).Ok? && m in Base(s).value.ids && TwoKeyed(Base(s).value, Base(s).value.ids[m])
    requires Base(s).value.nextLeaf <= Pow2(Base(s).value.depth)
    requires s.owner in Base(s).value.ids && s.owner != m && UpdatesOwn(s, sk, draw, d, s', r)
    ensures r == Err(ConflictingLeaf) && s'.graph == s.graph
  {
    hide SoundGraph, Down, OutcomeFor, EncryptedChange, EncryptedTree, ApplyOp, CanEncrypt, TwoKeyed, RatchetN;
    OthersStopped(Base(s).value, m, s.owner);
  }

  // ----- ... as replicas do it -----

  lemma ReaddedFork(g: OpGraph, h: Digest, rm: Digest, up1: Digest, add: Digest, up2: Digest, rmOp: Op, op1: Op,
                    addOp: Op, op2: Op)
    requires SoundGraph(g) && g.heads == {h} && {rm, up1, add, up2} !! g.ops.Keys && Distinct([rm, up1, add, up2])
    requires rmOp.Remove? && rmOp.preds == {h} && addOp.Add? && addOp.preds == {rm} && addOp.addPreds == g.addHeads
    requires op1.Update? && op1.preds == {h} && op2.Update? && op2.preds == {up1}
    ensures var a2 := AddOp(AddOp(g, rm, rmOp, None), add, addOp, None);
            var a3 := AddOp(a2, up1, op1, Some({h})); var g' := AddOp(a3, up2, op2, Some({up1}));
            && SoundGraph(a2) && SoundGraph(a3) && Fork(g, g', h, {rm, up1}, {add, up2}, add, up2)
            && g'.ops[rm] == rmOp && g'.ops[up1] == op1 && g'.ops[add] == addOp && g'.ops[up2] == op2
            && a3.heads == {add, up1} && g'.heads == {add, up2}
  {
    hide SoundGraph, Fork;
    FourDiffer(rm, up1, add, up2);
    HeadIsKnown(g, h);
    AddOpSound(g, rm, rmOp, None);
    var a1 := AddOp(g, rm, rmOp, None);
    AddOpSound(a1, add, addOp, None);
    var a2 := AddOp(a1, add, addOp, None);
    AddOpSound(a2, up1, op1, Some({h}));
    var a3 := AddOp(a2, up1, op1, Some({h}));
    AddOpSound(a3, up2, op2, Some({up1}));
    var g' := AddOp(a3, up2, op2, Some({up1}));
    assert g'.ops.Keys == g.ops.Keys + {rm, up1} + {add, up2};
    assert |{rm, up1}| == 2;
    ForkHere(g, g', h, {rm, up1}, {add, up2}, add, up2);
  }

  lemma FourDiffer(a: Digest, b: Digest, c: Digest, d: Digest)
    requires Distinct([a, b, c, d])
    ensures a != b && a != c && a != d && b != c && b != d && c != d
  {
    var s := [a, b, c, d];
    assert s[0] != s[1] && s[0] != s[2] && s[0] != s[3] && s[1] != s[2] && s[1] != s[3] && s[2] != s[3];
  }

  /** From any replica with one head: a member, not in the last slot, is removed and added
      back by one replica and updates twice at its own; the two updates then reach the other
      replica. The next operation there replays, and if the add's digest is below the second
      update's, nobody but that member can update any more. */
  lemma ReaddedRun(s: State, h: Digest, m: MemberId, pk: ShareKey, sks: ShareKeyMap, sk1: Secret,
                   draw1: nat -> Secret, sk2: Secret, draw2: nat -> Secret, rm: Digest, up1: Digest, add: Digest,
                   up2: Digest)
    returns (a1: State, a2: State, b1: State, b2: State, a3: State, a4: State, rmOp: Op, addOp: Op, op1: Op, op2: Op)
    requires Steady(s, h) && m in s.tree.ids && |s.tree.ids| > 1
    requires s.tree.ids[m] + 1 < s.tree.nextLeaf && s.tree.nextLeaf - 1 in s.tree.leaves
    requires CanEncrypt(s.tree, s.tree.ids[m]) && forall k :: pk != ShareKey(RatchetN(sk1, k))
    requires {rm, up1, add, up2} !! s.graph.ops.Keys && Distinct([rm, up1, add, up2])
    ensures Sensible(s) && RemovesMember(s, m, rm, a1, Ok(Some(rmOp))) && Sensible(a1)
    ensures AddsMember(a1, m, pk, add, a2, Ok(Some(addOp))) && Sensible(a2)
    ensures UpdatesOwn(As(s, m, sks), sk1, draw1, up1, b1, Ok((RatchetN(sk1, s.tree.depth), op1))) && Sensible(b1)
    ensures UpdatesOwn(b1, sk2, draw2, up2, b2, Ok((RatchetN(sk2, s.tree.depth), op2)))
    ensures Merges(a2, up1, op1, a3, Ok(true)) && Sensible(a3) && Merges(a3, up2, op2, a4, Ok(true)) && Sensible(a4)
    ensures Base(a4).Ok? && m in Base(a4).value.ids && Base(a4).value.ids.Keys == s.tree.ids.Keys
    ensures TwoKeyed(Base(a4).value, Base(a4).value.ids[m]) <==> add < up2
    ensures add < up2 ==>
              forall o, own, sk, draw, d, z, r ::
                o in s.tree.ids && o != m && UpdatesOwn(As(a4, o, own), sk, draw, d, z, r) ==> r == Err(ConflictingLeaf)
  {
    hide Steady, SoundGraph, Down, CanEncrypt, OutcomeFor, RatchetN, Linked, UpdatesOwn, AddsMember, RemovesMember,
         Merges, Base, TwoKeyed, Readding, AddOp, MadeFor, PushLeaf, Distinct;
    FourDiffer(rm, up1, add, up2);
    a1, a2, rmOp, addOp := RemoveAndReadd(s, h, m, pk, rm, add);
    b1, b2, op1, op2 := UpdateTwice(s, h, m, pk, sks, sk1, draw1, sk2, draw2, up1, up2);
    SteadyFacts(s, h);
    ReaddingHere(s.tree, rmOp, op1, addOp, op2, m);
    a3, a4 := MergeBoth(s, h, m, rm, up1, add, up2, rmOp, op1, addOp, op2, a2);
  }

  lemma RemoveAndReadd(s: State, h: Digest, m: MemberId, pk: ShareKey, rm: Digest, add: Digest)
    returns (a1: State, a2: State, rmOp: Op, addOp: Op)
    requires Steady(s, h) && m in s.tree.ids && |s.tree.ids| > 1 && rm !in s.graph.ops && add !in s.graph.ops
    requires s.tree.ids[m] + 1 < s.tree.nextLeaf && s.tree.nextLeaf - 1 in s.tree.leaves && rm != add
    ensures Sensible(s) && RemovesMember(s, m, rm, a1, Ok(Some(rmOp))) && Sensible(a1)
    ensures AddsMember(a1, m, pk, add, a2, Ok(Some(addOp))) && Sensible(a2) && !a2.pending
    ensures rmOp.Remove? && rmOp.id == m && rmOp.leafIdx == s.tree.ids[m] && rmOp.preds == {h}
    ensures addOp.Add? && addOp.addedId == m && addOp.pk == pk && addOp.preds == {rm}
    ensures addOp.addPreds == s.graph.addHeads && a2.graph == AddOp(AddOp(s.graph, rm, rmOp, None), add, addOp, None)
    ensures m in a2.tree.ids && a2.tree.ids[m] == s.tree.nextLeaf && s.tree.ids[m] < Pow2(a2.tree.depth)
  {
    hide Steady, SoundGraph, Down, PushLeaf, RemoveLeaf, OutcomeFor, Linked, ApplyOp, AddsMember, RemovesMember, AddOp;
    SteadyParts(s, h);
    SteadyFacts(s, h);
    a1, rmOp := RemoveRuns(s, h, m, rm);
    SteadyParts(a1, rm);
    GoneNow(s.tree, m);
    Recorded(s.graph, rm, rmOp);
    a2, addOp := AddRuns(a1, rm, m, pk, add);
    SteadyParts(a2, add);
    NewSlot(s.tree, m, pk);
  }

  lemma UpdateTwice(s: State, h: Digest, m: MemberId, pk: ShareKey, sks: ShareKeyMap, sk1: Secret,
                    draw1: nat -> Secret, sk2: Secret, draw2: nat -> Secret, up1: Digest, up2: Digest)
    returns (b1: State, b2: State, op1: Op, op2: Op)
    requires Steady(s, h) && m in s.tree.ids && CanEncrypt(s.tree, s.tree.ids[m])
    requires up1 !in s.graph.ops && up2 !in s.graph.ops && up1 != up2 && forall k :: pk != ShareKey(RatchetN(sk1, k))
    ensures Sensible(s)
    ensures UpdatesOwn(As(s, m, sks), sk1, draw1, up1, b1, Ok((RatchetN(sk1, s.tree.depth), op1))) && Sensible(b1)
    ensures UpdatesOwn(b1, sk2, draw2, up2, b2, Ok((RatchetN(sk2, s.tree.depth), op2)))
    ensures op1.Update? && op1.preds == {h} && MadeFor(op1.change, m, s.tree.ids[m])
    ensures op2.Update? && op2.preds == {up1} && MadeFor(op2.change, m, s.tree.ids[m])
    ensures pk !in ToSet(op2.change.removed)
  {
    hide Steady, SoundGraph, Down, CanEncrypt, OutcomeFor, RatchetN, Linked, UpdatesOwn, AddOp, EncryptedChange,
         EncryptedTree, Climbs, Sensible;
    SteadyParts(s, h);
    b1, op1 := OwnRun(s, h, m, sks, sk1, draw1, up1);
    SteadyParts(b1, up1);
    Recorded(s.graph, up1, op1);
    b2, op2 := UpdateRuns(b1, up1, sk2, draw2, up2);
    LinkedLeaf(s.tree, m);
    NotRemoved(s.tree, m, sk1, draw1, sk2, draw2, pk);
  }

  lemma LinkedLeaf(t: Tree, m: MemberId)
    requires Linked(t) && m in t.ids
    ensures t.ids[m] in t.leaves
  {}

  /** The updates reach the replica that removed and added back their author. */
  lemma MergeBoth(s: State, h: Digest, m: MemberId, rm: Digest, up1: Digest, add: Digest, up2: Digest, rmOp: Op,
                  op1: Op, addOp: Op, op2: Op, a2: State) returns (a3: State, a4: State)
    requires Steady(s, h) && {rm, up1, add, up2} !! s.graph.ops.Keys && Distinct([rm, up1, add, up2])
    requires rmOp.preds == {h} && addOp.Add? && addOp.preds == {rm} && addOp.addPreds == s.graph.addHeads
    requires op1.preds == {h} && op2.preds == {up1} && rmOp.Remove? && rmOp.id == m && m in s.tree.ids
    requires op1.Update? && MadeFor(op1.change, m, s.tree.ids[m])
    requires op2.Update? && MadeFor(op2.change, m, s.tree.ids[m])
    requires Readding(RosterOf(s.tree), rmOp, op1, addOp, op2)
    requires Sensible(a2) && !a2.pending && a2.graph == AddOp(AddOp(s.graph, rm, rmOp, None), add, addOp, None)
    requires m in a2.tree.ids && a2.tree.ids[m] != s.tree.ids[m] && s.tree.ids[m] < Pow2(a2.tree.depth)
    ensures Merges(a2, up1, op1, a3, Ok(true)) && Sensible(a3) && Merges(a3, up2, op2, a4, Ok(true)) && Sensible(a4)
    ensures Base(a4).Ok? && m in Base(a4).value.ids && Base(a4).value.ids.Keys == s.tree.ids.Keys
    ensures TwoKeyed(Base(a4).value, Base(a4).value.ids[m]) <==> add < up2
    ensures add < up2 ==>
              forall o, own, sk, draw, d, z, r ::
                o in s.tree.ids && o != m && UpdatesOwn(As(a4, o, own), sk, draw, d, z, r) ==> r == Err(ConflictingLeaf)
  {
    hide Steady, SoundGraph, Down, OutcomeFor, RosterOf, UpdatesOwn, Merges, Base, TwoKeyed, Readding, Fork, Distinct,
         Linked;
    FourDiffer(rm, up1, add, up2);
    SteadyParts(s, h);
    SteadyFacts(s, h);
    ReaddedFork(s.graph, h, rm, up1, add, up2, rmOp, op1, addOp, op2);
    hide MadeFor;
    MadeForSlot(op1.change, m, s.tree.ids[m]);
    MadeForSlot(op2.change, m, s.tree.ids[m]);
    a3 := EagerMerge(a2, up1, op1, add);
    a4 := EagerMerge(a3, up2, op2, add);
    SteadyOutcome(s, h);
    var t := OutcomeFor(s.graph, s.graph.ops.Keys).value;
    RosterFacts(t);
    RosterFacts(s.tree);
    ReaddedOutcome(s.graph, a4.graph, h, t, rm, up1, add, up2);
    ManyHeads(a4, add, up2);
    forall o, own, sk, draw, d, z, r
      | add < up2 && o in s.tree.ids && o != m && UpdatesOwn(As(a4, o, own), sk, draw, d, z, r)
      ensures r == Err(ConflictingLeaf)
    {
      SameBase(a4, o, own);
      OthersPanic(As(a4, o, own), m, sk, draw, d, z, r);
    }
  }

  lemma MadeForSlot(c: PathChange, m: MemberId, slot: nat)
    requires MadeFor(c, m, slot)
    ensures c.leafId == m && c.leafIdx == slot
  {}

  lemma GoneNow(t: Tree, m: MemberId)
    requires m in t.ids
    ensures m !in RemoveLeaf(t, m).ids
  {}

  lemma Recorded(g: OpGraph, d: Digest, op: Op)
    ensures var g' := AddOp(g, d, op, None);
            g'.ops.Keys == g.ops.Keys + {d} && (!op.Add? ==> g'.addHeads == g.addHeads) && g'.heads == {d}
  {}

  /** A member's first update, from another replica's state. */
  lemma OwnRun(s: State, h: Digest, m: MemberId, sks: ShareKeyMap, sk: Secret, draw: nat -> Secret, d: Digest)
    returns (b: State, op: Op)
    requires Steady(s, h) && m in s.tree.ids && CanEncrypt(s.tree, s.tree.ids[m]) && d !in s.graph.ops
    ensures Sensible(s) && UpdatesOwn(As(s, m, sks), sk, draw, d, b, Ok((RatchetN(sk, s.tree.depth), op)))
    ensures Steady(b, d) && b.owner == m && b.graph == AddOp(s.graph, d, op, None)
    ensures Linked(s.tree) && b.tree == EncryptedTree(s.tree, m, sk, draw)
    ensures b.tree.ids == s.tree.ids && b.tree.depth == s.tree.depth && CanEncrypt(b.tree, s.tree.ids[m])
    ensures op.Update? && op.preds == {h} && MadeFor(op.change, m, s.tree.ids[m])
  {
    hide Steady, SoundGraph, Down, CanEncrypt, EncryptedChange, OutcomeFor, RatchetN, ApplyOp, Climbs, UpdatesOwn,
         NewPath, Overwrite;
    SteadyParts(s, h);
    SteadyFacts(s, h);
    SteadyAs(s, h, m, sks);
    b, op := UpdateRuns(As(s, m, sks), h, sk, draw, d);
    CanEncryptAgain(s.tree, m, sk, draw);
  }

  lemma NewSlot(t: Tree, m: MemberId, pk: ShareKey)
    requires m in t.ids && t.ids[m] + 1 < t.nextLeaf <= Pow2(t.depth) && t.nextLeaf - 1 in t.leaves
    ensures var u := PushLeaf(RemoveLeaf(t, m), m, Single(pk));
            m in u.ids && u.ids[m] == t.nextLeaf && t.ids[m] < Pow2(u.depth)
  {
    hide Blanked;
    assert Trim(t.leaves - {t.ids[m]}, t.nextLeaf) == t.nextLeaf;
    assert Pow2(t.depth) < Pow2(t.depth + 1);
  }

  /** A concurrent update made for another slot is applied on arrival. */
  lemma EagerMerge(s: State, d: Digest, op: Op, head: Digest) returns (s': State)
    requires Sensible(s) && !s.pending && d !in s.graph.ops && op.Update? && op.preds <= s.graph.ops.Keys
    requires head in s.graph.heads && head !in op.preds && op.change.leafId in s.tree.ids
    requires op.change.leafIdx < Pow2(s.tree.depth) && s.tree.ids[op.change.leafId] != op.change.leafIdx
    ensures Merges(s, d, op, s', Ok(true)) && Sensible(s') && !s'.pending
    ensures s'.graph == AddOp(s.graph, d, op, Some(op.preds))
    ensures s'.tree.ids == s.tree.ids && s'.tree.depth == s.tree.depth
  {
    hide SoundGraph, Linked, Blanked, MergeKey, MergePath;
    AddOpSound(s.graph, d, op, Some(op.preds));
    SoundIsDown(AddOp(s.graph, d, op, Some(op.preds)));
    s' := s.(graph := AddOp(s.graph, d, op, Some(op.preds)), tree := ApplyOp(s.tree, op).value);
  }

  lemma NotRemoved(t: Tree, m: MemberId, sk1: Secret, draw1: nat -> Secret, sk2: Secret, draw2: nat -> Secret,
                   pk: ShareKey)
    requires m in t.ids && t.ids[m] in t.leaves && forall k :: pk != ShareKey(RatchetN(sk1, k))
    ensures pk !in ToSet(EncryptedChange(EncryptedTree(t, m, sk1, draw1), m, sk2, draw2).removed)
  {
    hide EncryptedChange, RatchetN, Overwrite, NewPath;
    if pk in EncryptedChange(EncryptedTree(t, m, sk1, draw1), m, sk2, draw2).removed {
      SecondRemoves(t, m, sk1, draw1, sk2, draw2, pk);
    }
  }

  lemma ReaddingHere(t: Tree, rm: Op, up1: Op, add: Op, up2: Op, m: MemberId)
    requires m in t.ids && |t.ids| > 1 && t.nextLeaf <= Pow2(t.depth) && t.ids[m] + 1 < t.nextLeaf
    requires t.nextLeaf - 1 in t.leaves && rm.Remove? && rm.id == m && rm.leafIdx == t.ids[m]
    requires add.Add? && add.addedId == m && up1.Update? && up2.Update?
    requires MadeFor(up1.change, m, t.ids[m]) && MadeFor(up2.change, m, t.ids[m])
    requires add.pk !in ToSet(up2.change.removed)
    ensures Readding(RosterOf(t), rm, up1, add, up2)
  {}

  lemma ManyHeads(s: State, x: Digest, y: Digest)
    requires Sensible(s) && s.graph.heads == {x, y} && x != y
    ensures Base(s) == OutcomeFor(s.graph, s.graph.ops.Keys)
    ensures Base(s).Ok? ==> Base(s).value.nextLeaf <= Pow2(Base(s).value.depth)
  {
    hide SoundGraph, Down, OutcomeFor, Linked;
    if OutcomeFor(s.graph, s.graph.ops.Keys).Ok? {
      OutcomeSettled(s.graph, s.graph.ops.Keys);
    }
  }

  lemma SameBase(s: State, o: MemberId, own: ShareKeyMap)
    requires Sensible(s)
    ensures Sensible(As(s, o, own)) && Base(As(s, o, own)) == Base(s)
  {}

  /** The smallest case: A, B and C, of whom B is removed and added back. A and C can no
      longer update. */
  lemma ReaddExample(draw: nat -> Secret)
    returns (s0: State, s1: State, s: State, a1: State, a2: State, b1: State, b2: State, a3: State, a4: State,
             addB: Op, addC: Op, rm: Op, add: Op, up1: Op, up2: Op, secret1: Secret, secret2: Secret)
    ensures s0 == First(0, ShareKey(Fresh(0)), 0, map[]) && Sensible(s0)
    ensures AddsMember(s0, 1, ShareKey(Fresh(1)), 1, s1, Ok(Some(addB))) && Sensible(s1)
    ensures AddsMember(s1, 2, ShareKey(Fresh(2)), 2, s, Ok(Some(addC))) && Sensible(s)
    ensures RemovesMember(s, 1, 3, a1, Ok(Some(rm))) && Sensible(a1)
    ensures AddsMember(a1, 1, ShareKey(Fresh(3)), 5, a2, Ok(Some(add))) && Sensible(a2)
    ensures UpdatesOwn(As(s, 1, map[]), Fresh(4), draw, 4, b1, Ok((secret1, up1))) && Sensible(b1)
    ensures UpdatesOwn(b1, Fresh(5), draw, 6, b2, Ok((secret2, up2)))
    ensures Merges(a2, 4, up1, a3, Ok(true)) && Sensible(a3) && Merges(a3, 6, up2, a4, Ok(true)) && Sensible(a4)
    ensures forall o, own, sk, draw, d, z, r ::
              o in {0, 2} && UpdatesOwn(As(a4, o, own), sk, draw, d, z, r) ==> r == Err(ConflictingLeaf)
  {
    hide Steady, AddsMember, RemovesMember, UpdatesOwn, Merges, Base, SoundGraph, Down, Linked, RatchetN, CanEncrypt,
         AddOp, EmptyGraph, TwoKeyed, First, Sensible;
    s0, s1, s, addB, addC := ThreeFounders();
    forall k: nat
      ensures ShareKey(Fresh(3)) != ShareKey(RatchetN(Fresh(4), k))
    {
      FreshIsNotDerived(3, 4, k);
    }
    a1, a2, b1, b2, a3, a4, rm, add, up1, up2 :=
      ReaddedRun(s, 2, 1, ShareKey(Fresh(3)), map[], Fresh(4), draw, Fresh(5), draw, 3, 4, 5, 6);
    secret1, secret2 := RatchetN(Fresh(4), s.tree.depth), RatchetN(Fresh(5), s.tree.depth);
  }

  lemma ThreeFounders() returns (s0: State, s1: State, s: State, addB: Op, addC: Op)
    ensures s0 == First(0, ShareKey(Fresh(0)), 0, map[]) && Sensible(s0)
    ensures AddsMember(s0, 1, ShareKey(Fresh(1)), 1, s1, Ok(Some(addB))) && Sensible(s1)
    ensures AddsMember(s1, 2, ShareKey(Fresh(2)), 2, s, Ok(Some(addC))) && Sensible(s)
    ensures Steady(s, 2) && s.graph.ops.Keys == {0, 1, 2} && s.tree.ids == map[0 := 0, 1 := 1, 2 := 2]
    ensures |s.tree.ids| > 1 && s.tree.nextLeaf == 3 && 2 in s.tree.leaves && CanEncrypt(s.tree, 1)
  {
    hide Steady, AddsMember, SoundGraph, Down, Linked, CanEncrypt, AddOp, EmptyGraph;
    s0 := First(0, ShareKey(Fresh(0)), 0, map[]);
    FirstIsSteady(0, ShareKey(Fresh(0)), 0, map[]);
    SteadyParts(s0, 0);
    FirstKeys(0, ShareKey(Fresh(0)), 0, map[]);
    hide First, PushLeaf, NewTree, Sensible;
    s1, addB := AddRuns(s0, 0, 1, ShareKey(Fresh(1)), 1);
    SteadyParts(s1, 1);
    Recorded(s0.graph, 1, addB);
    ThreeMembers(ShareKey(Fresh(0)), ShareKey(Fresh(1)), ShareKey(Fresh(2)));
    s, addC := AddRuns(s1, 1, 2, ShareKey(Fresh(2)), 2);
    SteadyParts(s, 2);
    Recorded(s1.graph, 2, addC);
  }

  lemma FirstKeys(id: MemberId, pk: ShareKey, d: Digest, sks: ShareKeyMap)
    ensures First(id, pk, d, sks).graph.ops.Keys == {d} && First(id, pk, d, sks).tree == NewTree(id, pk)
    ensures id in NewTree(id, pk).ids && NewTree(id, pk).ids.Keys == {id}
  {}

  lemma FreshIsNotDerived(a: nat, b: nat, k: nat)
    requires a != b
    ensures Fresh(a) != RatchetN(Fresh(b), k)
  {
    if Fresh(a) == RatchetN(Fresh(b), k) {
      assert RatchetN(Fresh(a), 0) == Fresh(a);
      RatchetInjective(a, 0, b, k);
    }
  }

  lemma ThreeMembers(a: ShareKey, b: ShareKey, c: ShareKey)
    ensures 1 !in NewTree(0, a).ids && 2 !in PushLeaf(NewTree(0, a), 1, Single(b)).ids
    ensures var t := PushLeaf(PushLeaf(NewTree(0, a), 1, Single(b)), 2, Single(c));
            && t.nextLeaf == 3 && 2 in t.leaves && t.ids == map[0 := 0, 1 := 1, 2 := 2] && |t.ids| > 1
            && CanEncrypt(t, 1)
  {
    hide CanEncrypt;
    var t := PushLeaf(PushLeaf(NewTree(0, a), 1, Single(b)), 2, Single(c));
    assert t.ids.Keys == {0, 1, 2};
    SubsetCount({0, 1}, t.ids.Keys);
    SinglesCanEncrypt(t, 1);
  }
}
