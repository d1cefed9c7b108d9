/** Exactly when an epoch replays: which trees and operations make a replay fail. */
module EpochOutcomes {
  import opened Results
  import opened Nodes
  import opened NodeKeys
  import opened KeyTree
  import opened PathUpdate
  import opened WellFormed
  import opened Operations
  import opened Normalise
  import opened Epochs
  import opened Graph
  import opened Replay
  import opened ReplicaSteps

  // ----- Rosters -----

  /** A tree without its keys: its size, who is in which slot, and where each member is found. */
  datatype Roster = Roster(depth: nat, nextLeaf: nat, slots: map<nat, MemberId>, ids: map<MemberId, nat>)

  function RosterOf(t: Tree): Roster {
    Roster(t.depth, t.nextLeaf, map i | i in t.leaves :: t.leaves[i].id, t.ids)
  }

  /** The path is for the slot its author is in, in a tree of this depth. */
  predicate Fits(r: Roster, c: PathChange)
    requires c.leafId in r.ids
  {
    |c.path| == r.depth && r.ids[c.leafId] == c.leafIdx
  }

  predicate Stays(r: Roster, c: PathChange) {
    forall k :: 0 <= k < |c.path| ==> Inner(c.path[k].0, r.depth)
  }

  lemma ClimbStays(r: Roster, c: PathChange)
    requires Climbs(c.path, c.leafIdx) && c.leafIdx < Pow2(r.depth)
    ensures |c.path| == r.depth ==> Stays(r, c)
  {
    forall k | 0 <= k < |c.path| <= r.depth
      ensures Inner(c.path[k].0, r.depth)
    {
      AncInTree(c.leafIdx, k + 1, r.depth);
    }
  }

  lemma RosterFacts(t: Tree)
    ensures var r := RosterOf(t);
            r.depth == t.depth && r.nextLeaf == t.nextLeaf && r.ids == t.ids && r.slots.Keys == t.leaves.Keys
  {}

  /** A removal needs a member, and one more beside it; an update needs its leaf inside the
      tree, and its path too if it fits, unless its author is gone. */
  predicate Accepts(r: Roster, op: Op) {
    match op
    case Add(_, _, _, _, _) => true
    case Remove(id, _, _, _) => id in r.ids && |r.ids| != 1
    case Update(_, c, _) => c.leafId in r.ids ==> c.leafIdx < Pow2(r.depth) && (Fits(r, c) ==> Stays(r, c))
  }

  function FreeFrom(slots: map<nat, MemberId>, n: nat): nat {
    if n == 0 || n - 1 in slots then n else FreeFrom(slots, n - 1)
  }

  function Seat(r: Roster, id: MemberId): Roster {
    Roster(if r.nextLeaf < Pow2(r.depth) then r.depth else r.depth + 1, r.nextLeaf + 1,
           r.slots[r.nextLeaf := id], r.ids[id := r.nextLeaf])
  }

  function After(r: Roster, op: Op): Roster
    requires Accepts(r, op)
  {
    match op
    case Add(id, _, _, _, _) => Seat(r, id)
    case Remove(id, _, _, _) =>
      var slots := r.slots - {r.ids[id]};
      r.(nextLeaf := FreeFrom(slots, r.nextLeaf), slots := slots, ids := r.ids - {id})
    case Update(_, _, _) => r
  }

  /** The roster after the operations of an epoch, if it accepts them all. */
  function RosterAfter(ops: map<Digest, Op>, r: Roster, epoch: seq<Digest>): Option<Roster>
    requires forall d :: d in epoch ==> d in ops
  {
    if epoch == [] then Some(r)
    else
      var before := RosterAfter(ops, r, epoch[..|epoch| - 1]);
      var op := ops[epoch[|epoch| - 1]];
      if before.Some? && Accepts(before.value, op) then Some(After(before.value, op)) else None
  }

  lemma {:induction false} TrimIsFreeFrom(t: Tree, gone: set<nat>, n: nat)
    ensures Trim(t.leaves - gone, n) == FreeFrom(RosterOf(t).slots - gone, n)
  {
    if n > 0 && n - 1 !in t.leaves - gone {
      TrimIsFreeFrom(t, gone, n - 1);
    }
  }

  lemma PushOnRoster(t: Tree, id: MemberId, pk: NodeKey)
    ensures RosterOf(PushLeaf(t, id, pk)) == Seat(RosterOf(t), id)
  {
    hide Blanked;
    assert RosterOf(PushLeaf(t, id, pk)).slots == Seat(RosterOf(t), id).slots;
  }

  lemma RemoveOnRoster(t: Tree, id: MemberId)
    requires Linked(t) && id in t.ids
    ensures var r, slots := RosterOf(t), RosterOf(t).slots - {t.ids[id]};
            RosterOf(RemoveLeaf(t, id))
            == r.(nextLeaf := FreeFrom(slots, r.nextLeaf), slots := slots, ids := r.ids - {id})
  {
    hide Blanked, Trim, FreeFrom;
    TrimIsFreeFrom(t, {t.ids[id]}, t.nextLeaf);
    assert RosterOf(RemoveLeaf(t, id)).slots == RosterOf(t).slots - {t.ids[id]};
  }

  lemma PathOnRoster(t: Tree, c: PathChange)
    requires Linked(t)
    ensures RosterOf(ApplyPath(t, c)) == RosterOf(t)
    ensures PathStop(t, c).None? <==>
            (c.leafId in t.ids ==> c.leafIdx < Pow2(t.depth) && (Fits(RosterOf(t), c) ==> Stays(RosterOf(t), c)))
  {
    hide Blanked, MergePath, MergeKey, HasRootKey;
    assert RosterOf(ApplyPath(t, c)).slots == RosterOf(t).slots;
  }

  lemma OpOnRoster(t: Tree, op: Op)
    requires Linked(t)
    ensures ApplyOp(t, op).Ok? <==> Accepts(RosterOf(t), op)
    ensures ApplyOp(t, op).Ok? ==> RosterOf(ApplyOp(t, op).value) == After(RosterOf(t), op)
  {
    hide PushLeaf, RemoveLeaf, ApplyPath, PathStop, Seat, Linked;
    match op
    case Add(id, pk, _, _, _) => PushOnRoster(t, id, Single(pk));
    case Remove(id, _, _, _) =>
      if id in t.ids {
        RemoveOnRoster(t, id);
      }
    case Update(_, c, _) => PathOnRoster(t, c);
  }

  /** The operations of an epoch succeed exactly when the roster accepts them one by one. */
  lemma {:induction false} OpsOnRoster(ops: map<Digest, Op>, steps: seq<Change>, t: Tree, epoch: seq<Digest>)
    requires Covered(ops, steps) && RunSteps(ops, steps) == Ok(t) && Covered(ops, steps + ApplyEach(epoch))
    requires forall d :: d in epoch ==> d in ops
    ensures var out := RunSteps(ops, steps + ApplyEach(epoch));
            var r := RosterAfter(ops, RosterOf(t), epoch);
            (out.Ok? <==> r.Some?) && (out.Ok? ==> RosterOf(out.value) == r.value)
  {
    hide RunSteps, Covered, Accepts, After, RosterOf;
    if epoch == [] {
      assert steps + ApplyEach(epoch) == steps;
    } else {
      var init, last := epoch[..|epoch| - 1], epoch[|epoch| - 1];
      var before := steps + ApplyEach(init);
      assert steps + ApplyEach(epoch) == before + [Apply(last)];
      CoveredInit(ops, before, Apply(last));
      OpsOnRoster(ops, steps, t, init);
      RunStepsSnoc(ops, before, Apply(last));
      if RunSteps(ops, before).Ok? {
        OpOnRoster(RunSteps(ops, before).value, ops[last]);
      }
    }
  }

  // ----- Sorting a roster -----

  /** Take members off the right until every wanted one has been met. */
  function Unseat(r: Roster, wanted: set<MemberId>): (Roster, seq<MemberId>)
    decreases r.nextLeaf
  {
    if wanted == {} || r.nextLeaf == 0 then (r, [])
    else
      var i := r.nextLeaf - 1;
      var rest := Unseat(r.(nextLeaf := i, slots := r.slots - {i}),
                         if i in r.slots then wanted - {r.slots[i]} else wanted);
      (rest.0, (if i in r.slots then [r.slots[i]] else []) + rest.1)
  }

  function InsertId(id: MemberId, ids: seq<MemberId>): seq<MemberId> {
    if ids == [] || id <= ids[0] then [id] + ids else [ids[0]] + InsertId(id, ids[1..])
  }

  function SortIds(ids: seq<MemberId>): seq<MemberId> {
    if ids == [] then [] else InsertId(ids[0], SortIds(ids[1..]))
  }

  function SeatAll(r: Roster, ids: seq<MemberId>): Roster {
    if ids == [] then r else Seat(SeatAll(r, ids[..|ids| - 1]), ids[|ids| - 1])
  }

  function Resorted(r: Roster, added: set<MemberId>, removed: set<(MemberId, nat)>): Roster {
    var off := Unseat(r.(slots := r.slots - Slots(removed)), added - RemovedIds(removed));
    SeatAll(off.0, SortIds(off.1))
  }

  function IdList(ls: seq<LeafNode>): seq<MemberId> {
    seq(|ls|, k requires 0 <= k < |ls| => ls[k].id)
  }

  lemma {:induction false} PopOnRoster(t: Tree, wanted: set<MemberId>)
    ensures RosterOf(Pop(t, wanted).0) == Unseat(RosterOf(t), wanted).0
    ensures IdList(Pop(t, wanted).1) == Unseat(RosterOf(t), wanted).1
    decreases t.nextLeaf
  {
    hide Blanked;
    if wanted != {} && t.nextLeaf > 0 {
      var i, r := t.nextLeaf - 1, RosterOf(t);
      var t' := BlankLeafAndPath(t, i).(nextLeaf := i);
      assert RosterOf(t').slots == r.slots - {i};
      assert RosterOf(t') == r.(nextLeaf := i, slots := r.slots - {i});
      PopOnRoster(t', if i in t.leaves then wanted - {t.leaves[i].id} else wanted);
    }
  }

  lemma {:induction false} InsertOnIds(leaf: LeafNode, ls: seq<LeafNode>)
    ensures IdList(InsertLeaf(leaf, ls)) == InsertId(leaf.id, IdList(ls))
  {
    if ls != [] && leaf.id > ls[0].id {
      InsertOnIds(leaf, ls[1..]);
      assert IdList(ls)[1..] == IdList(ls[1..]);
    }
  }

  lemma {:induction false} SortOnIds(ls: seq<LeafNode>)
    ensures IdList(SortById(ls)) == SortIds(IdList(ls))
  {
    if ls != [] {
      SortOnIds(ls[1..]);
      InsertOnIds(ls[0], SortById(ls[1..]));
      assert IdList(ls)[1..] == IdList(ls[1..]);
    }
  }

  lemma {:induction false} PushAllOnRoster(t: Tree, ls: seq<LeafNode>)
    ensures RosterOf(PushAll(t, ls)) == SeatAll(RosterOf(t), IdList(ls))
  {
    hide RosterOf, Seat, PushLeaf;
    if ls != [] {
      var init, last := ls[..|ls| - 1], ls[|ls| - 1];
      PushAllOnRoster(t, init);
      PushOnRoster(PushAll(t, init), last.id, last.pk);
      assert IdList(ls)[..|ls| - 1] == IdList(init);
    }
  }

  lemma SortOnRoster(t: Tree, added: set<MemberId>, removed: set<(MemberId, nat)>)
    ensures RosterOf(SortLeaves(t, added, removed)) == Resorted(RosterOf(t), added, removed)
  {
    hide Pop, PushAll, SortById, Unseat, SeatAll, SortIds, Blanked;
    var t0, r := BlankRemoved(t, Slots(removed)), RosterOf(t);
    assert RosterOf(t0).slots == r.slots - Slots(removed);
    assert RosterOf(t0) == r.(slots := r.slots - Slots(removed));
    var wanted := added - RemovedIds(removed);
    PopOnRoster(t0, wanted);
    var popped := Pop(t0, wanted);
    SortOnIds(popped.1);
    PushAllOnRoster(popped.0, SortById(popped.1));
  }

  // ----- Any epoch, any replay -----

  /** Every slot a removal of the epoch names is inside the tree and free. */
  predicate SlotsGivenUp(ops: map<Digest, Op>, r: Roster, epoch: seq<Digest>)
    requires forall d :: d in epoch ==> d in ops
  {
    forall d :: d in epoch && ops[d].Remove? ==> ops[d].leafIdx < Pow2(r.depth) && ops[d].leafIdx !in r.slots
  }

  /** The roster after an epoch: its operations accepted in turn and, where the epoch is
      sorted, the slots of its removals free at the end. */
  function RosterEpoch(ops: map<Digest, Op>, r: Roster, epoch: seq<Digest>): Option<Roster>
    requires forall d :: d in epoch ==> d in ops
  {
    var after := RosterAfter(ops, r, epoch);
    if after.None? || |epoch| == 1 || AllUpdates(ops, epoch) then after
    else if SlotsGivenUp(ops, after.value, epoch)
    then Some(Resorted(after.value, AddedIn(ops, epoch), RemovedIn(ops, epoch)))
    else None
  }

  /** An epoch replays if and only if the roster gets through it. */
  lemma EpochSucceedsIff(ops: map<Digest, Op>, steps: seq<Change>, t: Tree, epoch: seq<Digest>)
    requires Covered(ops, steps) && RunSteps(ops, steps) == Ok(t) && forall d :: d in epoch ==> d in ops
    requires Covered(ops, steps + EpochSteps(ops, epoch))
    ensures var out := RunSteps(ops, steps + EpochSteps(ops, epoch));
            var r := RosterEpoch(ops, RosterOf(t), epoch);
            (out.Ok? <==> r.Some?) && (out.Ok? ==> RosterOf(out.value) == r.value)
  {
    hide RunSteps, Covered, ApplyEach, RosterAfter, Accepts, After, RosterOf, SlotsGivenUp, Resorted;
    if |epoch| == 1 || AllUpdates(ops, epoch) {
      OpsOnRoster(ops, steps, t, epoch);
    } else {
      var c := Sort(AddedIn(ops, epoch), RemovedIn(ops, epoch));
      var each := steps + ApplyEach(epoch);
      assert steps + EpochSteps(ops, epoch) == each + [c];
      CoveredInit(ops, each, c);
      OpsOnRoster(ops, steps, t, epoch);
      RunStepsSnoc(ops, each, c);
      if RunSteps(ops, each).Ok? {
        PerformOnRoster(ops, RunSteps(ops, each).value, epoch);
      }
    }
  }

  lemma PerformOnRoster(ops: map<Digest, Op>, t: Tree, epoch: seq<Digest>)
    requires Linked(t) && forall d :: d in epoch ==> d in ops
    ensures var out := Perform(ops, t, Sort(AddedIn(ops, epoch), RemovedIn(ops, epoch)));
            && (out.Ok? <==> SlotsGivenUp(ops, RosterOf(t), epoch))
            && (out.Ok? ==> RosterOf(out.value) == Resorted(RosterOf(t), AddedIn(ops, epoch), RemovedIn(ops, epoch)))
  {
    hide SortLeaves, Resorted;
    var removed := RemovedIn(ops, epoch);
    forall d | d in epoch && ops[d].Remove?
      ensures ops[d].leafIdx in Slots(removed)
    {
      assert (ops[d].id, ops[d].leafIdx) in removed;
    }
    SortOnRoster(t, AddedIn(ops, epoch), removed);
  }

  // ----- What an epoch leaves blank -----

  /** Sorting leaves nothing above a removed slot. */
  lemma SortBlanks(t: Tree, added: set<MemberId>, removed: set<(MemberId, nat)>, n: Node)
    requires n in SortLeaves(t, added, removed).inner
    ensures forall i :: i in Slots(removed) ==> !Under(i, n)
  {
    hide Pop, PushAll, SortById, LeavesFrom, IdsFrom, Slots;
    var t0 := BlankRemoved(t, Slots(removed));
    var m := PopMeans(t0, added - RemovedIds(removed));
    PushAllMeans(Cut(t0, m), SortById(LeavesFrom(t0.leaves, m, t0.nextLeaf)));
  }

  /** Nor above a member added and not removed. */
  lemma SortBlanksAdded(t: Tree, added: set<MemberId>, removed: set<(MemberId, nat)>, n: Node, id: MemberId)
    requires Tidy(t) && forall i :: i in Slots(removed) ==> i !in t.leaves
    requires id in added - RemovedIds(removed) && id in t.ids && n in SortLeaves(t, added, removed).inner
    ensures var u := SortLeaves(t, added, removed); id in u.ids && !Under(u.ids[id], n)
  {
    hide SortLeaves, Slots, RemovedIds;
    var m := SortLeavesMeans(t, added, removed);
    SortLeavesTidy(t, added, removed);
    var u := SortLeaves(t, added, removed);
    assert t.ids[id] in t.leaves && t.leaves[t.ids[id]].id == id;
    assert HasLeaf(t, t.leaves[t.ids[id]]);
    var j :| j in u.leaves && u.leaves[j] == t.leaves[t.ids[id]];
    assert u.ids[id] == j;
    if j < m {
      KeptBelow(t, m, u, j);
    } else {
      assert j in Slots(removed) + Range(m, t.nextLeaf);
    }
  }

  /** An epoch of several operations leaves no key above any slot that one of its removals
      names, whatever updates it lists after the removal, and none above a member it adds and
      does not remove. */
  lemma EpochBlanks(ops: map<Digest, Op>, steps: seq<Change>, epoch: seq<Digest>, d: Digest, n: Node)
    requires (forall e :: e in epoch ==> e in ops) && Covered(ops, steps + EpochSteps(ops, epoch))
    requires RunSteps(ops, steps + EpochSteps(ops, epoch)).Ok? && d in epoch && |epoch| > 1
    requires n in RunSteps(ops, steps + EpochSteps(ops, epoch)).value.inner
    ensures Covered(ops, steps + ApplyEach(epoch)) && RunSteps(ops, steps + ApplyEach(epoch)).Ok?
    ensures ops[d].Remove? ==> !Under(ops[d].leafIdx, n)
    ensures ops[d].Add? && Tidy(RunSteps(ops, steps + ApplyEach(epoch)).value) ==>
              var t := RunSteps(ops, steps + ApplyEach(epoch)).value;
              var u, id := RunSteps(ops, steps + EpochSteps(ops, epoch)).value, ops[d].addedId;
              id in t.ids && id !in RemovedIds(RemovedIn(ops, epoch)) ==> id in u.ids && !Under(u.ids[id], n)
  {
    hide RunSteps, Covered, ApplyEach, SortLeaves, Tidy;
    if !AllUpdates(ops, epoch) {
      var each, c := steps + ApplyEach(epoch), Sort(AddedIn(ops, epoch), RemovedIn(ops, epoch));
      assert steps + EpochSteps(ops, epoch) == each + [c];
      CoveredInit(ops, each, c);
      RunStepsSnoc(ops, each, c);
      var t := RunSteps(ops, each).value;
      SortBlanks(t, c.added, c.removed, n);
      if ops[d].Remove? {
        assert (ops[d].id, ops[d].leafIdx) in c.removed;
      } else if ops[d].Add? && Tidy(t) && ops[d].addedId in t.ids && ops[d].addedId !in RemovedIds(c.removed) {
        SortBlanksAdded(t, c.added, c.removed, n, ops[d].addedId);
      }
    }
  }

  /** The roster after a replay, if it gets through every epoch. */
  function RosterReplay(ops: map<Digest, Op>, epochs: seq<seq<Digest>>): Option<Roster>
    requires forall d :: d in Flat(epochs) ==> d in ops
  {
    if epochs == [] then Some(Roster(1, 0, map[], map[]))
    else
      FlatInit(epochs);
      var before := RosterReplay(ops, epochs[..|epochs| - 1]);
      if before.None? then None else RosterEpoch(ops, before.value, epochs[|epochs| - 1])
  }

  /** Replaying the ancestors of any operations succeeds if and only if the roster gets
      through all their epochs, keys playing no part. */
  lemma ReplaySucceedsIff(g: OpGraph, a: set<Digest>)
    requires SoundGraph(g) && Down(g.preds, a) && a <= g.ops.Keys
    ensures forall d :: d in Flat(EpochsOf(g.preds, a)) ==> d in g.ops
    ensures var out, r := OutcomeFor(g, a), RosterReplay(g.ops, EpochsOf(g.preds, a));
            (out.Ok? <==> r.Some?) && (out.Ok? ==> RosterOf(out.value) == r.value)
  {
    hide SoundGraph, Down, EpochsOf, RosterOf, RosterReplay, ReplaySteps, RunSteps;
    AncestorsCovered(g, a);
    EpochsOnRoster(g.ops, EpochsOf(g.preds, a));
  }

  lemma {:induction false} EpochsOnRoster(ops: map<Digest, Op>, epochs: seq<seq<Digest>>)
    requires forall d :: d in Flat(epochs) ==> d in ops
    ensures Covered(ops, ReplaySteps(ops, epochs))
    ensures var out, r := RunSteps(ops, ReplaySteps(ops, epochs)), RosterReplay(ops, epochs);
            (out.Ok? <==> r.Some?) && (out.Ok? ==> RosterOf(out.value) == r.value)
  {
    hide RunSteps, EpochSteps, RosterEpoch, RosterOf, Covered;
    ReplayIsCovered(ops, epochs);
    if epochs == [] {
      EmptyOnRoster(ops);
    } else {
      var init, last := epochs[..|epochs| - 1], epochs[|epochs| - 1];
      FlatInit(epochs);
      EpochsOnRoster(ops, init);
      var steps := ReplaySteps(ops, init);
      if RunSteps(ops, steps).Ok? {
        EpochSucceedsIff(ops, steps, RunSteps(ops, steps).value, last);
      } else {
        ErrorsStayLater(ops, steps, steps + EpochSteps(ops, last));
      }
    }
  }

  lemma EmptyOnRoster(ops: map<Digest, Op>)
    ensures Covered(ops, []) && RunSteps(ops, []) == Ok(EmptyTree())
    ensures RosterOf(EmptyTree()) == Roster(1, 0, map[], map[])
  {}

  // ----- Epochs of removals -----

  /** The members an epoch of removals names. */
  function Targets(ops: map<Digest, Op>, epoch: seq<Digest>): set<MemberId>
    requires forall d :: d in epoch ==> d in ops && ops[d].Remove?
  {
    set d | d in epoch :: ops[d].id
  }

  /** Nobody is removed twice, everybody removed is a member, and somebody remains. */
  ghost predicate Removable(ops: map<Digest, Op>, t: Tree, epoch: seq<Digest>)
    requires forall d :: d in epoch ==> d in ops && ops[d].Remove?
  {
    && (forall i, j :: 0 <= i < j < |epoch| ==> ops[epoch[i]].id != ops[epoch[j]].id)
    && Targets(ops, epoch) <= t.ids.Keys && (epoch == [] || |epoch| < |t.ids|)
  }

  /** The slots those members sit in. */
  function Vacated(ops: map<Digest, Op>, t: Tree, epoch: seq<Digest>): set<nat>
    requires forall d :: d in epoch ==> d in ops && ops[d].Remove?
  {
    set d | d in epoch && ops[d].id in t.ids :: t.ids[ops[d].id]
  }

  ghost predicate RestOf(t: Tree, u: Tree, gone: set<MemberId>, vacated: set<nat>) {
    u.ids == t.ids - gone && u.depth == t.depth && u.leaves.Keys == t.leaves.Keys - vacated
  }

  lemma {:induction false} RemovalsApplyIff(ops: map<Digest, Op>, steps: seq<Change>, t: Tree, epoch: seq<Digest>)
    requires Covered(ops, steps) && RunSteps(ops, steps) == Ok(t) && Covered(ops, steps + ApplyEach(epoch))
    requires forall d :: d in epoch ==> d in ops && ops[d].Remove?
    ensures var out := RunSteps(ops, steps + ApplyEach(epoch));
            && (out.Ok? <==> Removable(ops, t, epoch))
            && (out.Ok? ==> RestOf(t, out.value, Targets(ops, epoch), Vacated(ops, t, epoch)))
  {
    hide RunSteps, Covered, Removable;
    if epoch == [] {
      assert steps + ApplyEach(epoch) == steps;
      NoRemovals(ops, t);
    } else {
      var init, last := epoch[..|epoch| - 1], epoch[|epoch| - 1];
      var before := steps + ApplyEach(init);
      assert steps + ApplyEach(epoch) == before + [Apply(last)];
      CoveredInit(ops, before, Apply(last));
      RemovalsApplyIff(ops, steps, t, init);
      RunStepsSnoc(ops, before, Apply(last));
      assert epoch == init + [last];
      OneMoreRemoval(ops, t, init, last);
      if RunSteps(ops, before).Ok? {
        RemovalOutcome(RunSteps(ops, before).value, ops[last]);
        VacatedSnoc(ops, t, init, last);
      }
    }
  }

  lemma NoRemovals(ops: map<Digest, Op>, t: Tree)
    ensures Removable(ops, t, []) && t.ids - Targets(ops, []) == t.ids && Vacated(ops, t, []) == {}
  {}

  lemma RemovalOutcome(t: Tree, op: Op)
    requires Linked(t) && op.Remove?
    ensures ApplyOp(t, op).Ok? <==> op.id in t.ids && |t.ids| != 1
    ensures ApplyOp(t, op).Ok? ==>
              RestOf(t, ApplyOp(t, op).value, {op.id}, {t.ids[op.id]})
  {}

  lemma VacatedSnoc(ops: map<Digest, Op>, t: Tree, init: seq<Digest>, last: Digest)
    requires forall d :: d in init + [last] ==> d in ops && ops[d].Remove?
    ensures ops[last].id in t.ids ==> Vacated(ops, t, init + [last]) == Vacated(ops, t, init) + {t.ids[ops[last].id]}
  {}

  lemma OneMoreRemoval(ops: map<Digest, Op>, t: Tree, init: seq<Digest>, last: Digest)
    requires forall d :: d in init + [last] ==> d in ops && ops[d].Remove?
    ensures var rest := t.ids - Targets(ops, init);
            && (Removable(ops, t, init + [last])
                <==> Removable(ops, t, init) && ops[last].id in rest && |rest| != 1)
            && t.ids - Targets(ops, init + [last]) == rest - {ops[last].id}
  {
    hide Removable, Targets;
    TargetsSnoc(ops, init, last);
    if Removable(ops, t, init) {
      RestCount(ops, t, init);
      if ops[last].id in t.ids - Targets(ops, init) && |t.ids - Targets(ops, init)| != 1 {
        LongerRemovable(ops, t, init, last);
      }
    }
    if Removable(ops, t, init + [last]) {
      InitRemovable(ops, t, init, last);
      RestCount(ops, t, init);
    }
  }

  lemma TargetsSnoc(ops: map<Digest, Op>, init: seq<Digest>, last: Digest)
    requires forall d :: d in init + [last] ==> d in ops && ops[d].Remove?
    ensures Targets(ops, init + [last]) == Targets(ops, init) + {ops[last].id}
  {}

  lemma RestCount(ops: map<Digest, Op>, t: Tree, init: seq<Digest>)
    requires (forall d :: d in init ==> d in ops && ops[d].Remove?) && Removable(ops, t, init)
    ensures |t.ids - Targets(ops, init)| == |t.ids| - |init|
  {
    TargetCount(ops, init);
    var rest := t.ids - Targets(ops, init);
    assert rest.Keys == t.ids.Keys - Targets(ops, init);
    assert |rest.Keys| == |t.ids.Keys| - |Targets(ops, init)|;
  }

  lemma LongerRemovable(ops: map<Digest, Op>, t: Tree, init: seq<Digest>, last: Digest)
    requires (forall d :: d in init + [last] ==> d in ops && ops[d].Remove?) && Removable(ops, t, init)
    requires ops[last].id in t.ids && ops[last].id !in Targets(ops, init) && |init| + 1 < |t.ids|
    ensures Removable(ops, t, init + [last])
  {
    TargetsSnoc(ops, init, last);
    forall i | 0 <= i < |init|
      ensures ops[init[i]].id != ops[last].id
    {
      assert init[i] in init;
    }
  }

  lemma InitRemovable(ops: map<Digest, Op>, t: Tree, init: seq<Digest>, last: Digest)
    requires (forall d :: d in init + [last] ==> d in ops && ops[d].Remove?) && Removable(ops, t, init + [last])
    ensures Removable(ops, t, init) && ops[last].id in t.ids && ops[last].id !in Targets(ops, init)
    ensures |init| + 1 < |t.ids|
  {
    var all := init + [last];
    assert forall i :: 0 <= i < |init| ==> all[i] == init[i];
    assert all[|init|] == last;
    assert Targets(ops, all) == Targets(ops, init) + {ops[last].id};
  }

  lemma {:induction false} TargetCount(ops: map<Digest, Op>, epoch: seq<Digest>)
    requires forall d :: d in epoch ==> d in ops && ops[d].Remove?
    requires forall i, j :: 0 <= i < j < |epoch| ==> ops[epoch[i]].id != ops[epoch[j]].id
    ensures |Targets(ops, epoch)| == |epoch|
  {
    if epoch == [] {
      assert Targets(ops, epoch) == {};
    } else {
      var init, last := epoch[..|epoch| - 1], epoch[|epoch| - 1];
      TargetCount(ops, init);
      assert epoch == init + [last];
      assert Targets(ops, epoch) == Targets(ops, init) + {ops[last].id};
    }
  }
  /** A removed slot is inside the tree, and blank or vacated by the epoch. */
  predicate SlotsVacated(ops: map<Digest, Op>, t: Tree, epoch: seq<Digest>)
    requires forall d :: d in epoch ==> d in ops && ops[d].Remove?
  {
    forall d :: d in epoch ==>
      && ops[d].leafIdx < Pow2(t.depth)
      && (ops[d].leafIdx in t.leaves ==> ops[d].leafIdx in Vacated(ops, t, epoch))
  }

  /** An epoch of concurrent removals replays if and only if it names distinct members, leaves
      somebody and, when there are several removals, every slot they name comes free. */
  lemma RemovalsSucceedIff(ops: map<Digest, Op>, steps: seq<Change>, t: Tree, epoch: seq<Digest>)
    requires Covered(ops, steps) && RunSteps(ops, steps) == Ok(t)
    requires forall d :: d in epoch ==> d in ops && ops[d].Remove?
    requires Covered(ops, steps + EpochSteps(ops, epoch))
    ensures RunSteps(ops, steps + EpochSteps(ops, epoch)).Ok?
            <==> Removable(ops, t, epoch) && (|epoch| <= 1 || SlotsVacated(ops, t, epoch))
  {
    hide RunSteps, Covered, ApplyEach, Removable, Vacated, Targets;
    if |epoch| <= 1 {
      assert epoch == [] || |epoch| == 1;
      RemovalsApplyIff(ops, steps, t, epoch);
    } else {
      assert !ops[epoch[0]].Update? && epoch[0] in epoch;
      var c := Sort(AddedIn(ops, epoch), RemovedIn(ops, epoch));
      var each := steps + ApplyEach(epoch);
      assert steps + EpochSteps(ops, epoch) == each + [c];
      CoveredInit(ops, each, c);
      RemovalsApplyIff(ops, steps, t, epoch);
      RunStepsSnoc(ops, each, c);
      if RunSteps(ops, each).Ok? {
        PerformOnRoster(ops, RunSteps(ops, each).value, epoch);
      }
    }
  }

  /** When each removal names the slot its target is in, as its author saw it, the slots come
      free by themselves. */
  lemma RemovalsInPlaceSucceedIff(ops: map<Digest, Op>, steps: seq<Change>, t: Tree, epoch: seq<Digest>)
    requires Covered(ops, steps) && RunSteps(ops, steps) == Ok(t)
    requires forall d :: d in epoch ==> d in ops && ops[d].Remove?
    requires forall d :: d in epoch && ops[d].id in t.ids ==> ops[d].leafIdx == t.ids[ops[d].id]
    requires Covered(ops, steps + EpochSteps(ops, epoch))
    ensures RunSteps(ops, steps + EpochSteps(ops, epoch)).Ok? <==> Removable(ops, t, epoch)
  {
    hide RunSteps, Covered, ApplyEach, EpochSteps;
    RemovalsSucceedIff(ops, steps, t, epoch);
    RunStepsSettled(ops, steps);
    if Removable(ops, t, epoch) {
      InPlaceVacates(ops, t, epoch);
    }
  }

  lemma InPlaceVacates(ops: map<Digest, Op>, t: Tree, epoch: seq<Digest>)
    requires Linked(t) && t.nextLeaf <= Pow2(t.depth) && forall d :: d in epoch ==> d in ops && ops[d].Remove?
    requires Targets(ops, epoch) <= t.ids.Keys
    requires forall d :: d in epoch && ops[d].id in t.ids ==> ops[d].leafIdx == t.ids[ops[d].id]
    ensures SlotsVacated(ops, t, epoch)
  {
    forall d | d in epoch
      ensures ops[d].leafIdx < Pow2(t.depth) && ops[d].leafIdx in Vacated(ops, t, epoch)
    {
      assert ops[d].id in Targets(ops, epoch);
    }
  }

  // ----- Epochs of adds -----

  /** The leaves an epoch of adds brings. */
  function AddedLeaves(ops: map<Digest, Op>, epoch: seq<Digest>): (ls: seq<LeafNode>)
    requires forall d :: d in epoch ==> d in ops && ops[d].Add?
    ensures |ls| == |epoch|
    ensures forall k :: 0 <= k < |epoch| ==> ls[k] == LeafNode(ops[epoch[k]].addedId, Single(ops[epoch[k]].pk))
  {
    if epoch == [] then []
    else
      var d := epoch[|epoch| - 1];
      AddedLeaves(ops, epoch[..|epoch| - 1]) + [LeafNode(ops[d].addedId, Single(ops[d].pk))]
  }

  lemma {:induction false} AddsArePushes(ops: map<Digest, Op>, steps: seq<Change>, t: Tree, epoch: seq<Digest>)
    requires Covered(ops, steps) && RunSteps(ops, steps) == Ok(t) && Covered(ops, steps + ApplyEach(epoch))
    requires forall d :: d in epoch ==> d in ops && ops[d].Add?
    ensures RunSteps(ops, steps + ApplyEach(epoch)) == Ok(PushAll(t, AddedLeaves(ops, epoch)))
  {
    hide RunSteps, Covered, PushLeaf;
    if epoch == [] {
      assert steps + ApplyEach(epoch) == steps;
    } else {
      var init, last := epoch[..|epoch| - 1], epoch[|epoch| - 1];
      var before := steps + ApplyEach(init);
      assert steps + ApplyEach(epoch) == before + [Apply(last)];
      CoveredInit(ops, before, Apply(last));
      AddsArePushes(ops, steps, t, init);
      RunStepsSnoc(ops, before, Apply(last));
      assert AddedLeaves(ops, epoch)[..|init|] == AddedLeaves(ops, init);
    }
  }

  /** Nobody is added twice. */
  ghost predicate DistinctAdds(ops: map<Digest, Op>, epoch: seq<Digest>)
    requires forall d :: d in epoch ==> d in ops && ops[d].Add?
  {
    forall i, j :: 0 <= i < j < |epoch| ==> ops[epoch[i]].addedId != ops[epoch[j]].addedId
  }

  /** Two replays that list an epoch of concurrent adds in different orders give the same
      tree. */
  lemma AddEpochOrderDoesNotMatter(ops: map<Digest, Op>, steps: seq<Change>, p: seq<Digest>, q: seq<Digest>)
    requires (forall d :: d in p ==> d in ops && ops[d].Add?) && (forall d :: d in q <==> d in p)
    requires DistinctAdds(ops, p) && DistinctAdds(ops, q) && Covered(ops, steps)
    requires Covered(ops, steps + EpochSteps(ops, p)) && Covered(ops, steps + EpochSteps(ops, q))
    ensures RunSteps(ops, steps + EpochSteps(ops, p)) == RunSteps(ops, steps + EpochSteps(ops, q))
  {
    hide RunSteps, Covered, ApplyEach, SortLeaves, PushAll;
    var out := RunSteps(ops, steps);
    if out.Err? {
      ErrorsStayLater(ops, steps, steps + EpochSteps(ops, p));
      ErrorsStayLater(ops, steps, steps + EpochSteps(ops, q));
    } else {
      SameLeaves(ops, p, q);
      var ls, ms := AddedLeaves(ops, p), AddedLeaves(ops, q);
      AddOrderDoesNotMatter(out.value, ls, ms);
      SameLength(ls, ms);
      if |p| <= 1 {
        assert p == q;
      } else {
        AddEpochRuns(ops, steps, out.value, p);
        AddEpochRuns(ops, steps, out.value, q);
      }
    }
  }

  lemma SameLeaves(ops: map<Digest, Op>, p: seq<Digest>, q: seq<Digest>)
    requires (forall d :: d in p ==> d in ops && ops[d].Add?) && (forall d :: d in q <==> d in p)
    requires DistinctAdds(ops, p) && DistinctAdds(ops, q)
    ensures var ls, ms := AddedLeaves(ops, p), AddedLeaves(ops, q);
            DistinctIds(ls) && DistinctIds(ms) && forall x :: x in ls <==> x in ms
  {
    SomeLeaves(ops, p, q);
    SomeLeaves(ops, q, p);
  }

  lemma SomeLeaves(ops: map<Digest, Op>, p: seq<Digest>, q: seq<Digest>)
    requires (forall d :: d in q ==> d in ops && ops[d].Add?) && (forall d :: d in p ==> d in q)
    ensures forall x :: x in AddedLeaves(ops, p) ==> x in AddedLeaves(ops, q)
  {
    forall x | x in AddedLeaves(ops, p)
      ensures x in AddedLeaves(ops, q)
    {
      var k :| 0 <= k < |p| && AddedLeaves(ops, p)[k] == x;
      assert p[k] in q;
      var m :| 0 <= m < |q| && q[m] == p[k];
      assert AddedLeaves(ops, q)[m] == x;
    }
  }

  lemma AddEpochRuns(ops: map<Digest, Op>, steps: seq<Change>, t: Tree, p: seq<Digest>)
    requires (forall d :: d in p ==> d in ops && ops[d].Add?) && |p| > 1
    requires Covered(ops, steps) && RunSteps(ops, steps) == Ok(t) && Covered(ops, steps + EpochSteps(ops, p))
    ensures var ls := AddedLeaves(ops, p);
            RunSteps(ops, steps + EpochSteps(ops, p)) == Ok(SortLeaves(PushAll(t, ls), IdsOf(ls), {}))
  {
    hide RunSteps, Covered, ApplyEach, SortLeaves, PushAll;
    assert !ops[p[0]].Update? && p[0] in p;
    var c := Sort(AddedIn(ops, p), RemovedIn(ops, p));
    var each := steps + ApplyEach(p);
    assert steps + EpochSteps(ops, p) == each + [c];
    CoveredInit(ops, each, c);
    AddsArePushes(ops, steps, t, p);
    RunStepsSnoc(ops, each, c);
    AddedAreIds(ops, p);
    assert RemovedIn(ops, p) == {} && Slots({}) == {};
  }

  lemma AddedAreIds(ops: map<Digest, Op>, p: seq<Digest>)
    requires forall d :: d in p ==> d in ops && ops[d].Add?
    ensures AddedIn(ops, p) == IdsOf(AddedLeaves(ops, p))
  {
    var ls := AddedLeaves(ops, p);
    forall d | d in p
      ensures ops[d].addedId in IdsOf(ls)
    {
      var k :| 0 <= k < |p| && p[k] == d;
      assert ls[k] in ls;
    }
    forall x | x in ls
      ensures x.id in AddedIn(ops, p)
    {
      var k :| 0 <= k < |ls| && ls[k] == x;
      assert p[k] in p;
    }
  }
}
