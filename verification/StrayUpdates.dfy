/** Updates that name a leaf or a node outside the tree they are applied to, and how a
    concurrent removal makes an honest update do so. */
module StrayUpdates {
  import opened Seqs
  import opened Results
  import opened Nodes
  import TreeMath
  import opened Crypto
  import opened NodeKeys
  import opened KeyTree
  import opened PathUpdate
  import opened WellFormed
  import opened Operations
  import opened Resolutions
  import opened Epochs
  import opened Graph
  import opened Replay
  import opened ReplicaSteps
  import opened EpochOutcomes
  import opened Continuation

  // ----- When an update applies -----

  /** An update overflows exactly when its author is in the tree and the walk from the leaf
      it names never meets the root, which is when that leaf is outside the tree. It indexes
      out of bounds exactly when its path is merged and leaves the tree. Otherwise it applies. */
  lemma UpdateAppliesIff(t: Tree, op: Op)
    requires Linked(t) && op.Update?
    ensures op.change.leafIdx < Pow2(t.depth)
            <==> exists k :: TreeMath.Index(Anc(op.change.leafIdx, k)) == TreeMath.Index(Root(t.depth))
    ensures var c, out := op.change, ApplyOp(t, op);
            && (out == Err(ShiftOverflow) <==> c.leafId in t.ids && c.leafIdx >= Pow2(t.depth))
            && (out == Err(IndexOutOfBounds)
                <==> && c.leafId in t.ids && c.leafIdx < Pow2(t.depth) && ValidPath(t, c)
                     && exists k :: 0 <= k < |c.path| && !Inner(c.path[k].0, t.depth))
            && (out.Err? ==> out.error in {ShiftOverflow, IndexOutOfBounds})
  {
    hide TreeMath.Index, ApplyPath;
    var i := op.change.leafIdx;
    if i < Pow2(t.depth) {
      AncRoot(i, t.depth);
    } else {
      forall k: nat
        ensures TreeMath.Index(Anc(i, k)) != TreeMath.Index(Root(t.depth))
      {
        TreeMath.NeverMeetsRoot(i, t.depth, k);
      }
    }
  }

  // ----- A removal that overtakes an add -----

  /** In a full tree one member removes the one in the last slot while another adds a member,
      who updates without having seen the removal, for the slot after the last. */
  ghost predicate Overtaking(r: Roster, rm: Op, add: Op, up: Op) {
    && r.nextLeaf == Pow2(r.depth) && |r.ids| > 1 && rm.Remove? && add.Add? && up.Update?
    && rm.id in r.ids && r.ids[rm.id] == r.nextLeaf - 1 && rm.leafIdx == r.nextLeaf - 1 && add.addedId !in r.ids
    && up.change.leafId == add.addedId && up.change.leafIdx == r.nextLeaf
    && Climbs(up.change.path, up.change.leafIdx)
  }

  lemma RemovalFirst(r: Roster, rm: Op, add: Op, up: Op)
    requires Overtaking(r, rm, add, up)
    ensures Accepts(r, rm) && Accepts(After(r, rm), add)
    ensures var taken := After(After(r, rm), add);
            up.change.leafId in taken.ids && up.change.leafIdx >= Pow2(taken.depth)
  {
    hide Pow2, Climbs;
    var slots := r.slots - {r.nextLeaf - 1};
    FreeBelow(slots, r.nextLeaf - 1);
    assert FreeFrom(slots, r.nextLeaf) == FreeFrom(slots, r.nextLeaf - 1);
  }

  lemma {:induction false} FreeBelow(slots: map<nat, MemberId>, n: nat)
    ensures FreeFrom(slots, n) <= n
  {
    if n > 0 && n - 1 !in slots {
      FreeBelow(slots, n - 1);
    }
  }

  lemma AddFirst(r: Roster, rm: Op, add: Op, up: Op)
    requires Overtaking(r, rm, add, up)
    ensures Accepts(r, add) && Accepts(After(r, add), rm)
    ensures var left := After(After(r, add), rm);
            Accepts(left, up) && After(left, up) == left && rm.leafIdx < Pow2(left.depth) && rm.leafIdx !in left.slots
  {
    hide FreeFrom;
    assert Pow2(r.depth) < Pow2(r.depth + 1);
    SubsetCount(r.ids.Keys, r.ids[add.addedId := r.nextLeaf].Keys);
    var left := After(After(r, add), rm);
    ClimbStays(left, up.change);
  }

  /** Replayed with the removal first, the newcomer takes over the vacated slot, the tree does
      not grow, and the update cannot be applied. */
  lemma OvertakenUpdate(t: Tree, rm: Op, add: Op, up: Op)
    requires Linked(t) && Overtaking(RosterOf(t), rm, add, up)
    ensures var vacated := ApplyOp(t, rm);
            && vacated.Ok? && var taken := ApplyOp(vacated.value, add);
            taken.Ok? && ApplyOp(taken.value, up) == Err(ShiftOverflow)
  {
    hide ApplyOp, After, Accepts, RosterOf, Overtaking;
    RemovalFirst(RosterOf(t), rm, add, up);
    OpOnRoster(t, rm);
    var vacated := ApplyOp(t, rm).value;
    OpOnRoster(vacated, add);
    var taken := ApplyOp(vacated, add).value;
    IsUpdate(RosterOf(t), rm, add, up);
    RosterFacts(taken);
    UpdateAppliesIff(taken, up);
  }

  lemma IsUpdate(r: Roster, rm: Op, add: Op, up: Op)
    requires Overtaking(r, rm, add, up)
    ensures rm.Remove? && add.Add? && up.Update?
  {}

  lemma RunThree(ops: map<Digest, Op>, steps: seq<Change>, t: Tree, a: Digest, b: Digest, c: Digest)
    requires Covered(ops, steps) && RunSteps(ops, steps) == Ok(t) && {a, b, c} <= ops.Keys
    requires var one := ApplyOp(t, ops[a]); one.Ok? && ApplyOp(one.value, ops[b]).Ok?
    ensures Covered(ops, steps + ApplyEach([a, b, c]))
    ensures RunSteps(ops, steps + ApplyEach([a, b, c]))
            == ApplyOp(ApplyOp(ApplyOp(t, ops[a]).value, ops[b]).value, ops[c])
  {
    hide RunSteps, ApplyOp;
    var epoch := [a, b, c];
    assert ApplyEach(epoch) == [Apply(a), Apply(b), Apply(c)] by {
      EachSnoc(epoch, 0);
      EachSnoc(epoch, 1);
      EachSnoc(epoch, 2);
      assert epoch[..3] == epoch && ApplyEach(epoch[..0]) == [];
    }
    RunStepsSnoc(ops, steps, Apply(a));
    RunStepsSnoc(ops, steps + [Apply(a)], Apply(b));
    RunStepsSnoc(ops, steps + [Apply(a)] + [Apply(b)], Apply(c));
    assert steps + [Apply(a)] + [Apply(b)] + [Apply(c)] == steps + ApplyEach(epoch);
  }

  /** Whoever holds the removal, the add and the update can replay them if and only if the
      add's digest is the smaller one. */
  lemma OvertakenOutcome(g: OpGraph, g': OpGraph, h: Digest, t: Tree, rm: Digest, add: Digest, up: Digest)
    requires Fork(g, g', h, {rm, add}, {up}, rm, up) && Down(g.preds, g.ops.Keys)
    requires OutcomeFor(g, g.ops.Keys) == Ok(t) && Overtaking(RosterOf(t), g'.ops[rm], g'.ops[add], g'.ops[up])
    ensures Down(g'.preds, g'.ops.Keys)
    ensures OutcomeFor(g', g'.ops.Keys).Ok? <==> add < rm
    ensures rm < add ==> OutcomeFor(g', g'.ops.Keys) == Err(ShiftOverflow)
  {
    hide Fork, Down, OutcomeFor, RosterOf, Overtaking, RunSteps, ApplyOp, EpochSteps, Sorted;
    ForkDiffers(g, g', h, rm, add, up);
    IsUpdate(RosterOf(t), g'.ops[rm], g'.ops[add], g'.ops[up]);
    var steps := ForkContinues(g, g', h, t, {rm, add}, {up}, rm, up);
    SortedSingle(up);
    if rm < add {
      SortedPair(rm, add);
      assert [rm, add] + [up] == [rm, add, up];
      OvertakenUpdate(t, g'.ops[rm], g'.ops[add], g'.ops[up]);
      RunThree(g'.ops, steps, t, rm, add, up);
      EpochFails(g'.ops, steps, [rm, add, up]);
    } else {
      assert {rm, add} == {add, rm};
      SortedPair(add, rm);
      assert [add, rm] + [up] == [add, rm, up];
      EpochSucceedsIff(g'.ops, steps, t, [add, rm, up]);
      AddFirstEpoch(g'.ops, RosterOf(t), rm, add, up);
    }
  }

  lemma ForkDiffers(g: OpGraph, g': OpGraph, h: Digest, rm: Digest, add: Digest, up: Digest)
    requires Fork(g, g', h, {rm, add}, {up}, rm, up)
    ensures rm != add && {rm, add, up} <= g'.ops.Keys
  {
    assert rm == add ==> |{rm, add}| == 1;
  }

  lemma AddFirstEpoch(ops: map<Digest, Op>, r: Roster, rm: Digest, add: Digest, up: Digest)
    requires {rm, add, up} <= ops.Keys && Overtaking(r, ops[rm], ops[add], ops[up])
    ensures (forall d :: d in [add, rm, up] ==> d in ops) && RosterEpoch(ops, r, [add, rm, up]).Some?
  {
    AddFirst(r, ops[rm], ops[add], ops[up]);
    IsUpdate(r, ops[rm], ops[add], ops[up]);
    hide Overtaking, Accepts, After, Resorted;
    var epoch := [add, rm, up];
    assert epoch[..2] == [add, rm] && [add, rm][..1] == [add] && [add][..0] == [];
    assert RosterAfter(ops, r, [add]) == Some(After(r, ops[add]));
    assert RosterAfter(ops, r, [add, rm]) == Some(After(After(r, ops[add]), ops[rm]));
    assert RosterAfter(ops, r, epoch) == Some(After(After(r, ops[add]), ops[rm]));
  }

  // ----- ... as replicas do it -----

  /** From any replica with one head and a full tree: a member is removed from the last slot;
      elsewhere a member is added, who updates; the newcomer then receives the removal. Its
      next operation cannot replay when the removal's digest is the smaller one. */
  lemma OvertakenRun(s: State, h: Digest, m: MemberId, e: MemberId, pk: ShareKey, sks: ShareKeyMap, sk: Secret,
                     draw: nat -> Secret, rm: Digest, add: Digest, up: Digest)
    returns (s1: State, s2: State, s3: State, s4: State, rmOp: Op, addOp: Op, upOp: Op)
    requires Steady(s, h) && s.tree.nextLeaf == Pow2(s.tree.depth) && |s.tree.ids| > 1
    requires m in s.tree.ids && s.tree.ids[m] == s.tree.nextLeaf - 1 && e !in s.tree.ids
    requires CanEncrypt(PushLeaf(s.tree, e, Single(pk)), s.tree.nextLeaf)
    requires {rm, add, up} !! s.graph.ops.Keys && rm != add && rm != up && add != up
    ensures Sensible(s) && RemovesMember(s, m, rm, s1, Ok(Some(rmOp)))
    ensures AddsMember(s, e, pk, add, s2, Ok(Some(addOp))) && Sensible(s2)
    ensures UpdatesOwn(As(s2, e, sks), sk, draw, up, s3, Ok((RatchetN(sk, s2.tree.depth), upOp))) && Sensible(s3)
    ensures Merges(s3, rm, rmOp, s4, Ok(true)) && Sensible(s4)
    ensures Base(s4).Ok? <==> add < rm
    ensures rm < add ==> Base(s4) == Err(ShiftOverflow)
  {
    hide Steady, SoundGraph, Down, CanEncrypt, PushLeaf, RemoveLeaf, EncryptedTree, EncryptedChange, OutcomeFor,
         RatchetN, Linked, RosterOf, ApplyOp, Climbs, UpdatesOwn, AddsMember, RemovesMember, Base;
    SteadyParts(s, h);
    SteadyFacts(s, h);
    s1, rmOp := RemoveRuns(s, h, m, rm);
    s2, addOp := AddRuns(s, h, e, pk, add);
    PushedSlot(s.tree, e, pk);
    SteadyAs(s2, add, e, sks);
    s3, upOp := UpdateRuns(As(s2, e, sks), add, sk, draw, up);
    SteadyParts(s2, add);
    SteadyParts(s3, up);
    s4 := s3.(graph := AddOp(s3.graph, rm, rmOp, Some(rmOp.preds)), pending := true);
    DeferredMerge(s3, rm, rmOp, up, h, s4);
    SteadyOutcome(s, h);
    var g, t := s.graph, OutcomeFor(s.graph, s.graph.ops.Keys).value;
    OvertakenFork(g, h, rm, add, up, rmOp, addOp, upOp);
    RosterFacts(s.tree);
    OvertakenHere(s.tree, m, e, rmOp, addOp, upOp);
    OvertakenOutcome(g, s4.graph, h, t, rm, add, up);
    DeferredBase(s4);
  }

  lemma OvertakenHere(t: Tree, m: MemberId, e: MemberId, rm: Op, add: Op, up: Op)
    requires t.nextLeaf == Pow2(t.depth) && |t.ids| > 1 && m in t.ids && t.ids[m] == t.nextLeaf - 1 && e !in t.ids
    requires rm.Remove? && rm.id == m && rm.leafIdx == t.ids[m] && add.Add? && add.addedId == e && up.Update?
    requires up.change.leafId == e && up.change.leafIdx == t.nextLeaf && Climbs(up.change.path, up.change.leafIdx)
    ensures Overtaking(RosterOf(t), rm, add, up)
  {}

  lemma PushedSlot(t: Tree, id: MemberId, pk: ShareKey)
    ensures var u := PushLeaf(t, id, Single(pk)); id in u.ids && u.ids[id] == t.nextLeaf
  {}

  lemma OvertakenFork(g: OpGraph, h: Digest, rm: Digest, add: Digest, up: Digest, rmOp: Op, addOp: Op, upOp: Op)
    requires SoundGraph(g) && g.heads == {h} && {rm, add, up} !! g.ops.Keys && rm != add && rm != up && add != up
    requires rmOp.Remove? && rmOp.preds == {h} && addOp.Add? && addOp.preds == {h} && addOp.addPreds == g.addHeads
    requires upOp.Update? && upOp.preds == {add}
    ensures var g' := AddOp(AddOp(AddOp(g, add, addOp, None), up, upOp, None), rm, rmOp, Some({h}));
            && Fork(g, g', h, {rm, add}, {up}, rm, up)
            && g'.ops[rm] == rmOp && g'.ops[add] == addOp && g'.ops[up] == upOp
  {
    hide SoundGraph, Fork, Extends;
    HeadIsKnown(g, h);
    AddOpSound(g, add, addOp, None);
    var g1 := AddOp(g, add, addOp, None);
    AddOpSound(g1, up, upOp, None);
    var g2 := AddOp(g1, up, upOp, None);
    AddOpSound(g2, rm, rmOp, Some({h}));
    var g' := AddOp(g2, rm, rmOp, Some({h}));
    assert g'.ops.Keys == g.ops.Keys + {rm, add} + {up};
    assert |{rm, add}| == 2;
    ForkHere(g, g', h, {rm, add}, {up}, rm, up);
  }

  /** The smallest case. A and B fill a tree of depth one. B is removed; elsewhere C is added
      and updates. */
  lemma FullTreeExample(draw: nat -> Secret)
    returns (s0: State, s: State, s1: State, s2: State, s3: State, s4: State, addB: Op, rm: Op, add: Op, up: Op,
             secret: Secret)
    ensures s0 == First(0, ShareKey(Fresh(0)), 0, map[]) && Sensible(s0)
    ensures AddsMember(s0, 1, ShareKey(Fresh(1)), 1, s, Ok(Some(addB))) && Sensible(s)
    ensures RemovesMember(s, 1, 2, s1, Ok(Some(rm)))
    ensures AddsMember(s, 2, ShareKey(Fresh(2)), 3, s2, Ok(Some(add))) && Sensible(s2)
    ensures UpdatesOwn(As(s2, 2, map[]), Fresh(3), draw, 4, s3, Ok((secret, up))) && Sensible(s3)
    ensures Merges(s3, 2, rm, s4, Ok(true)) && Sensible(s4) && Base(s4) == Err(ShiftOverflow)
  {
    hide Steady, AddsMember, RemovesMember, UpdatesOwn, Merges, Base, SoundGraph, Down, Linked, RatchetN, CanEncrypt;
    s0 := First(0, ShareKey(Fresh(0)), 0, map[]);
    FirstIsSteady(0, ShareKey(Fresh(0)), 0, map[]);
    SteadyParts(s0, 0);
    s, addB := AddRuns(s0, 0, 1, ShareKey(Fresh(1)), 1);
    SteadyParts(s, 1);
    TwoMembers(ShareKey(Fresh(0)), ShareKey(Fresh(1)), ShareKey(Fresh(2)));
    s1, s2, s3, s4, rm, add, up :=
      OvertakenRun(s, 1, 1, 2, ShareKey(Fresh(2)), map[], Fresh(3), draw, 2, 3, 4);
    secret := RatchetN(Fresh(3), s2.tree.depth);
  }

  lemma TwoMembers(a: ShareKey, b: ShareKey, c: ShareKey)
    ensures var t := PushLeaf(NewTree(0, a), 1, Single(b));
            && t.nextLeaf == 2 == Pow2(t.depth) && t.ids == map[0 := 0, 1 := 1] && |t.ids| > 1
            && CanEncrypt(PushLeaf(t, 2, Single(c)), 2)
  {
    var t := PushLeaf(NewTree(0, a), 1, Single(b));
    assert Pow2(1) == 2;
    assert t.ids.Keys == {0, 1} && |{0, 1}| == 2;
    hide CanEncrypt;
    SinglesCanEncrypt(PushLeaf(t, 2, Single(c)), 2);
  }
}
