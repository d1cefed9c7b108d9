/** `Cgka`: one replica of the group state.

    The tree is held as a value; class BeeKem is proved to compute the functions applied to
    it here. Digests of new operations are parameters. */
module CgkaReplica {
  import opened Seqs
  import opened Results
  import opened Crypto
  import opened NodeKeys
  import opened KeyTree
  import opened WellFormed
  import opened Operations
  import opened Normalise
  import opened Epochs
  import opened Graph
  import opened OperationGraph
  import opened Replay
  import opened ReplicaSteps
  import opened KeyOffers

  class Cgka {
    const graph: CgkaOperationGraph
    const originalMember: (MemberId, ShareKey)
    const initDigest: Digest
    var ownerId: MemberId
    var ownerSks: ShareKeyMap
    var tree: Tree
    var pending: bool
    /** How the tree came about, while nothing is pending. */
    ghost var steps: seq<Change>

    /** With the pending flag unset, every operation in the graph has been applied to the
        tree, once and after its predecessors; with the flag set, there are at least two
        heads. */
    ghost predicate Valid()
      reads this, graph
    {
      && SoundGraph(graph.Model()) && Rooted(graph.Model(), initDigest)
      && graph.ops[initDigest] == InitAdd(originalMember.0, originalMember.1)
      && Linked(tree) && Settled(tree)
      && if pending then |graph.heads| >= 2 else Reflects(graph.Model(), steps, tree)
    }

    /** `new_from_init_add`. */
    constructor NewFromInitAdd(id: MemberId, pk: ShareKey, d: Digest)
      ensures Valid() && fresh(graph) && !pending
      ensures ownerId == id && originalMember == (id, pk) && initDigest == d && ownerSks == map[]
      ensures tree == NewTree(id, pk) && steps == [Apply(d)]
      ensures graph.Model() == AddOp(EmptyGraph(), d, InitAdd(id, pk), None)
    {
      var g := new CgkaOperationGraph();
      graph, originalMember, initDigest := g, (id, pk), d;
      ownerId, ownerSks, tree, pending := id, map[], NewTree(id, pk), false;
      steps := [Apply(d)];
      new;
      FirstReflects(id, pk, d);
      graph.AddOpAndUpdateHeads(d, InitAdd(id, pk), None);
    }

    ghost function Now(): State
      reads this, graph
    {
      State(graph.Model(), tree, pending, ownerId, ownerSks)
    }

    lemma IsSensible()
      requires Valid()
      ensures Sensible(Now()) && graph.heads != {}
    {
      RootedIsSingle(graph.Model(), initDigest);
    }

    /** `should_replay`. */
    predicate ShouldReplay()
      reads this, graph
    {
      graph.heads != {} && (pending || |graph.heads| != 1)
    }

    /** `has_pcs_key`: never true while the tree lags behind the graph. */
    method HasPcsKey() returns (b: bool)
      requires Valid()
      ensures b <==> HasKey(Now())
      ensures b <==> HasRootKey(tree) && OneEnd(graph.Model()) && OneLooseAdd(graph.Model().ops)
      ensures b ==> !pending && Reflects(graph.Model(), steps, tree)
    {
      b := HasRootKey(tree) && |graph.heads| == 1 && |graph.addHeads| < 2;
      KeyOfferedIff(Now());
    }

    // ----- Applying operations -----

    /** `apply_operation`. An operation already in the graph is skipped; one that fails is
        not added. */
    method ApplyOperation(d: Digest, op: Op) returns (r: Result<bool>)
      requires Valid() && !pending
      requires d !in graph.ops ==> op.preds != {} && Admissible(graph.Model(), d, op)
      modifies this`tree, this`steps, graph
      ensures Valid()
      ensures d in old(graph.ops) ==>
                r == Ok(false) && graph.Model() == old(graph.Model()) && tree == old(tree) && steps == old(steps)
      ensures d !in old(graph.ops) ==>
                match ApplyOp(old(tree), op)
                case Err(e) => r == Err(e) && graph.Model() == old(graph.Model()) && tree == old(tree) &&
                  steps == old(steps)
                case Ok(t) =>
                  && r == Ok(true) && tree == t && steps == old(steps) + [Apply(d)]
                  && graph.Model() == AddOp(old(graph.Model()), d, op, Some(op.preds))
    {
      hide SoundGraph, Reflects, Settled;
      if d in graph.ops {
        return Ok(false);
      }
      ghost var g := graph.Model();
      ghost var before := tree;
      match op {
        case Add(id, pk, _, _, _) =>
          tree := PushLeaf(tree, id, Single(pk));
        case Remove(id, _, _, _) =>
          var removed := RemoveId(tree, id);
          if removed.Err? {
            return Err(removed.error);
          }
          tree := removed.value;
        case Update(_, change, _) =>
          var stop := PathStop(tree, change);
          if stop.Some? {
            return Err(stop.value);
          }
          tree := ApplyPath(tree, change);
      }
      ApplyOpSettled(before, op);
      ReflectsStep(g, steps, before, d, op, Some(op.preds));
      steps := steps + [Apply(d)];
      RootedGrows(g, initDigest, d, op, Some(op.preds));
      graph.AddOpAndUpdateHeads(d, op, Some(op.preds));
      r := Ok(true);
    }

    // ----- Replaying -----

    /** The operations of one epoch in order, on a replica that holds the operations `done`
        of the graph `whole`. */
    method ApplyEpochOps(epoch: seq<Digest>, ops: map<Digest, Op>, ghost whole: OpGraph, ghost done: seq<Digest>)
      returns (r: Result<bool>)
      requires Valid() && !pending && whole.ops == ops && Rooted(whole, initDigest)
      requires SoundGraph(whole) && PartOf(graph.Model(), whole, ToSet(done)) && Listing(whole.preds, {}, done + epoch)
      modifies this`tree, this`steps, graph
      ensures Valid()
      ensures r.Ok? ==> steps == old(steps) + ApplyEach(epoch) && PartOf(graph.Model(), whole, ToSet(done + epoch))
      ensures r.Err? ==>
                && Covered(ops, old(steps) + ApplyEach(epoch))
                && RunSteps(ops, old(steps) + ApplyEach(epoch)) == Err(r.error)
    {
      hide Valid, Listing, PartOf, RunSteps, Covered, ApplyEach, Admissible, Rooted, Reflects, ApplyOp, SoundGraph,
           ToSet;
      ghost var steps0 := steps;
      var j := 0;
      EpochKnown(graph.Model(), whole, done, epoch);
      StartEpoch(steps0, done, epoch);
      while j < |epoch|
        invariant 0 <= j <= |epoch| && Valid()
        invariant steps == steps0 + ApplyEach(epoch[..j]) && PartOf(graph.Model(), whole, ToSet(done + epoch[..j]))
      {
        var d := epoch[j];
        ReflectsHere();
        NextInEpoch(graph.Model(), whole, initDigest, done, epoch, j);
        var applied := ApplyOperation(d, ops[d]);
        if applied.Err? {
          FailsAt(graph.Model(), whole, ToSet(done + epoch[..j]), steps, tree, steps0, epoch, j, applied.error);
          return applied;
        }
        EachSnoc(epoch, j);
        assert done + epoch[..j + 1] == done + epoch[..j] + [d];
        ToSetSnoc(done + epoch[..j], d);
        j := j + 1;
      }
      assert epoch[..j] == epoch;
      r := Ok(true);
    }

    /** The membership changes of an epoch. */
    static method CollectMembership(epoch: seq<Digest>, ops: map<Digest, Op>)
      returns (addedIds: set<MemberId>, removedIds: set<(MemberId, nat)>)
      requires forall d :: d in epoch ==> d in ops
      ensures addedIds == AddedIn(ops, epoch) && removedIds == RemovedIn(ops, epoch)
    {
      addedIds, removedIds := {}, {};
      var j := 0;
      while j < |epoch|
        invariant 0 <= j <= |epoch|
        invariant addedIds == AddedIn(ops, epoch[..j]) && removedIds == RemovedIn(ops, epoch[..j])
      {
        MembershipSnoc(ops, epoch, j);
        match ops[epoch[j]] {
          case Add(id, _, _, _, _) =>
            addedIds := addedIds + {id};
          case Remove(id, leafIdx, _, _) =>
            removedIds := removedIds + {(id, leafIdx)};
          case Update(_, _, _) =>
        }
        j := j + 1;
      }
      assert epoch[..j] == epoch;
    }

    /** One epoch: its operations, and a sort if several operations with a membership change
        among them were concurrent. */
    method ApplyEpoch(epoch: seq<Digest>, ops: map<Digest, Op>, ghost whole: OpGraph, ghost done: seq<Digest>)
      returns (r: Result<bool>)
      requires Valid() && !pending && whole.ops == ops && Rooted(whole, initDigest)
      requires SoundGraph(whole) && PartOf(graph.Model(), whole, ToSet(done)) && Listing(whole.preds, {}, done + epoch)
      requires forall d :: d in epoch ==> d in ops
      modifies this`tree, this`steps, graph
      ensures Valid()
      ensures r.Ok? ==>
                && steps == old(steps) + EpochSteps(ops, epoch)
                && PartOf(graph.Model(), whole, ToSet(done + epoch))
      ensures r.Err? ==>
                && Covered(ops, old(steps) + EpochSteps(ops, epoch))
                && RunSteps(ops, old(steps) + EpochSteps(ops, epoch)) == Err(r.error)
    {
      hide Valid, Listing, PartOf, RunSteps, Covered, ApplyEach, Rooted, Reflects, SoundGraph, ToSet, AddedIn,
           RemovedIn;
      ghost var steps0 := steps;
      r := ApplyEpochOps(epoch, ops, whole, done);
      if r.Err? {
        EpochFails(ops, steps0, epoch);
        return;
      }
      if |epoch| == 1 || AllUpdates(ops, epoch) {
        return;
      }
      var addedIds, removedIds := CollectMembership(epoch, ops);
      ReflectsHere();
      SortOutcome(graph.Model(), whole, ToSet(done + epoch), steps, tree, addedIds, removedIds);
      assert steps0 + ApplyEach(epoch) + [Sort(addedIds, removedIds)]
          == steps0 + (ApplyEach(epoch) + [Sort(addedIds, removedIds)]);
      var sorted := SortTree(addedIds, removedIds);
      r := if sorted then Ok(true) else Err(AssertionFailed);
    }

    /** The sort, unless the assertion on removed slots fails. */
    method SortTree(addedIds: set<MemberId>, removedIds: set<(MemberId, nat)>) returns (ok: bool)
      requires Valid() && !pending
      modifies this`tree, this`steps
      ensures Valid() && (ok <==> SlotsFree(old(tree), removedIds))
      ensures ok ==>
                && tree == SortLeaves(old(tree), addedIds, removedIds)
                && steps == old(steps) + [Sort(addedIds, removedIds)]
      ensures !ok ==> tree == old(tree) && steps == old(steps)
    {
      hide SoundGraph, Rooted, Reflects, Settled, Linked, SortLeaves;
      ok := SlotsFree(tree, removedIds);
      if ok {
        SortReflects(graph.Model(), steps, tree, addedIds, removedIds);
        SortLeavesSettled(tree, addedIds, removedIds);
        SortLeavesLinked(tree, addedIds, removedIds);
        tree := SortLeaves(tree, addedIds, removedIds);
        steps := steps + [Sort(addedIds, removedIds)];
      }
    }

    /** `apply_epochs` on a replica that holds only the initial add, which is the first epoch
        of every sorted graph. */
    method ApplyEpochs(epochs: seq<seq<Digest>>, ops: map<Digest, Op>, ghost whole: OpGraph) returns (r: Result<bool>)
      requires Valid() && !pending && steps == [Apply(initDigest)] && whole.ops == ops && SoundGraph(whole) &&
               Rooted(whole, initDigest)
      requires PartOf(graph.Model(), whole, {initDigest}) && epochs != [] && epochs[0] == [initDigest]
      requires Listing(whole.preds, {}, Flat(epochs)) && forall d :: d in Flat(epochs) ==> d in ops
      modifies this`tree, this`steps, graph
      ensures Valid()
      ensures r.Ok? ==> steps == ReplaySteps(ops, epochs) && PartOf(graph.Model(), whole, ToSet(Flat(epochs)))
      ensures r.Err? ==>
                && Covered(ops, ReplaySteps(ops, epochs))
                && RunSteps(ops, ReplaySteps(ops, epochs)) == Err(r.error)
    {
      hide Valid, Listing, PartOf, RunSteps, Covered, Rooted, Reflects, SoundGraph, ToSet, ReplaySteps, Flat,
           EpochSteps;
      ReflectsHere();
      FirstReplayed(ops, epochs, initDigest);
      var k := 1;
      while k < |epochs|
        invariant 1 <= k <= |epochs| && Valid() && forall d :: d in Flat(epochs[..k]) ==> d in ops
        invariant steps == ReplaySteps(ops, epochs[..k]) && PartOf(graph.Model(), whole, ToSet(Flat(epochs[..k])))
      {
        NextReplayed(ops, whole.preds, epochs, k);
        ghost var done := Flat(epochs[..k]);
        r := ApplyEpoch(epochs[k], ops, whole, done);
        if r.Err? {
          ReplayFails(ops, epochs, k + 1);
          return;
        }
        k := k + 1;
      }
      assert epochs[..k] == epochs;
      r := Ok(true);
    }

    /** `with_new_owner`, on a replica that is not shared. */
    method WithNewOwner(id: MemberId, sks: ShareKeyMap)
      requires Valid()
      modifies this`ownerId, this`ownerSks
      ensures Valid() && ownerId == id && ownerSks == sks
    {
      hide SoundGraph, Rooted, Reflects, Settled, Linked;
      ownerId, ownerSks := id, sks;
    }

    /** `rebuild_cgka` and `rebuild_pcs_key` up to the last line: a fresh replica from the
        initial add, with the epochs applied. */
    method RebuildFrom(epochs: seq<seq<Digest>>, ghost past: Preds, ghost a: set<Digest>) returns (r: Result<Cgka>)
      requires Valid() && IsPast(graph.preds, past) && a != {} && Down(graph.preds, a) &&
               epochs == EpochsOf(graph.preds, a)
      ensures forall d :: d in Flat(epochs) ==> d in graph.ops
      ensures Covered(graph.ops, ReplaySteps(graph.ops, epochs))
      ensures r.Ok? <==> RunSteps(graph.ops, ReplaySteps(graph.ops, epochs)).Ok?
      ensures r.Ok? ==>
                && fresh(r.value) && fresh(r.value.graph) && r.value.Valid() && !r.value.pending
                && r.value.steps == ReplaySteps(graph.ops, epochs) && PartOf(r.value.graph.Model(), graph.Model(), a)
                && RunSteps(graph.ops, r.value.steps) == Ok(r.value.tree)
                && r.value.ownerId == ownerId && r.value.ownerSks == ownerSks
      ensures r.Err? ==> RunSteps(graph.ops, ReplaySteps(graph.ops, epochs)) == Err(r.error)
    {
      hide Valid, Listing, PartOf, RunSteps, Covered, Rooted, Reflects, SoundGraph, ToSet, ReplaySteps, Flat,
           EpochSteps, IsPast, Down, EpochsOf, NewTree;
      ghost var whole := graph.Model();
      RootHere();
      EpochsListAll(whole, past, a, initDigest);
      ReplayIsCovered(whole.ops, epochs);
      var rebuilt := new Cgka.NewFromInitAdd(originalMember.0, originalMember.1, initDigest);
      rebuilt.WithNewOwner(ownerId, ownerSks);
      InitIsPart(rebuilt.graph.Model(), whole, initDigest, InitAdd(originalMember.0, originalMember.1));
      var applied := rebuilt.ApplyEpochs(epochs, graph.ops, whole);
      if applied.Err? {
        return Err(applied.error);
      }
      rebuilt.ReflectsHere();
      PartRuns(rebuilt.graph.Model(), whole, a, rebuilt.steps, rebuilt.tree);
      r := Ok(rebuilt);
    }

    /** `replay_ops_graph` under `should_replay`: the tree is rebuilt from the sorted graph.
        The rebuilt replica never has a key to decrypt, because it has the same two or more
        heads. On an error nothing changes. */
    method ReplayOpsGraph() returns (r: Result<bool>)
      requires Valid() && |graph.heads| >= 2
      modifies this`tree, this`ownerSks, this`pending, this`steps
      ensures Valid() && ownerSks == old(ownerSks)
      ensures Sensible(Now())
      ensures match OutcomeFor(graph.Model(), graph.ops.Keys)
              case Ok(t) => r == Ok(true) && tree == t && !pending
              case Err(e) => r == Err(e) && tree == old(tree) && pending == old(pending) && steps == old(steps)
    {
      hide Valid, Listing, RunSteps, Covered, Rooted, Reflects, ToSet, ReplaySteps, Flat, EpochSteps, IsPast, EpochsOf,
           AddsInPast, Ancestors;
      RootHere();
      IsSensible();
      ghost var g := graph.Model();
      ghost var past :| IsPast(g.preds, past) && AddsInPast(g.ops, past);
      RootedIsSingle(g, initDigest);
      HeadsReachAll(g, past);
      var epochs := graph.TopsortForHeads(graph.heads, past);
      var rebuilt := RebuildFrom(epochs, past, g.ops.Keys);
      if rebuilt.Err? {
        return Err(rebuilt.error);
      }
      WholeIsWhole(rebuilt.value.graph.Model(), g);
      var has := rebuilt.value.HasPcsKey();
      if has {
        assert false;
      }
      rebuilt.value.ReflectsHere();
      TakeOver(rebuilt.value);
      IsSensible();
      r := Ok(true);
    }

    /** `update_cgka_from`, for a rebuilt replica with the same graph. */
    method TakeOver(other: Cgka)
      requires Valid() && other.Valid() && !other.pending && other.graph.Model() == graph.Model() &&
               other.ownerSks == ownerSks
      modifies this`tree, this`ownerSks, this`pending, this`steps
      ensures Valid() && !pending && tree == old(other.tree) && steps == old(other.steps) && ownerSks == old(ownerSks)
    {
      hide SoundGraph, Rooted, Reflects, Settled, Linked;
      tree, ownerSks, pending, steps := other.tree, ownerSks + other.ownerSks, other.pending, other.steps;
      assert ownerSks == old(ownerSks);
    }

    /** Resolve outstanding concurrency before the next operation in causal order. */
    method PrepareTree() returns (r: Result<bool>)
      requires Valid()
      modifies this`tree, this`ownerSks, this`pending, this`steps
      ensures Valid() && ownerSks == old(ownerSks)
      ensures Sensible(old(Now()))
      ensures match Base(old(Now()))
              case Ok(t) => r == Ok(true) && tree == t && !pending
              case Err(e) => r == Err(e) && tree == old(tree) && pending == old(pending) && steps == old(steps)
    {
      hide Rooted, Reflects, SoundGraph, Settled, Linked, OutcomeFor, Down;
      IsSensible();
      if ShouldReplay() {
        TwoHeads(graph.heads);
        r := ReplayOpsGraph();
      } else {
        r := Ok(true);
      }
    }

    // ----- Receiving -----

    /** What the code demands of a received operation: once its predecessors are known it
        has at least one, and an add names add-predecessors from its own past. */
    ghost predicate Deliverable(d: Digest, op: Op)
      reads this, graph
    {
      d !in graph.ops && op.preds <= graph.ops.Keys ==> op.preds != {} && Admissible(graph.Model(), d, op)
    }

    /** Keep an operation in the graph without applying it. */
    method Defer(d: Digest, op: Op)
      requires Valid() && d !in graph.ops && op.preds != {} && Admissible(graph.Model(), d, op) &&
               !(graph.heads <= op.preds)
      modifies this`pending, graph
      ensures Valid() && pending && graph.Model() == AddOp(old(graph.Model()), d, op, Some(op.preds))
    {
      hide SoundGraph, Reflects, Settled, Linked, Admissible;
      ghost var g := graph.Model();
      HeadsKnown(g);
      StillTwoHeads(g, d, op);
      RootedGrows(g, initDigest, d, op, Some(op.preds));
      graph.AddOpAndUpdateHeads(d, op, Some(op.preds));
      pending := true;
    }

    /** `merge_concurrent_operation`; a concurrent update applied on arrival is one more step
        of the same tree. */
    method MergeConcurrentOperation(d: Digest, op: Op) returns (r: Result<bool>)
      requires Valid() && Deliverable(d, op)
      modifies this, graph
      ensures Valid() && Sensible(old(Now())) && Merges(old(Now()), d, op, Now(), r)
      ensures r == Ok(true) && !(old(graph.heads) <= op.preds) && !pending ==> steps == old(steps) + [Apply(d)]
    {
      hide Valid, Admissible, Linked, ApplyOp, OutcomeFor, SoundGraph, Down;
      IsSensible();
      if d in graph.ops {
        return Ok(false);
      }
      if !(op.preds <= graph.ops.Keys) {
        return Err(OutOfOrderOperation);
      }
      var contained := graph.HeadsContainedIn(op.preds);
      if !contained {
        if pending || IsMembership(op) {
          Defer(d, op);
          return Ok(true);
        }
        r := ApplyOperation(d, op);
        return;
      }
      r := PrepareTree();
      if r.Err? {
        return;
      }
      r := ApplyOperation(d, op);
    }

    // ----- Local operations -----

    /** Apply a local operation and add it to the graph with the current heads. */
    method RecordLocal(d: Digest, op: Op, t: Tree)
      requires Valid() && !pending && d !in graph.ops && NamesHeads(graph.Model(), op)
      requires Linked(tree) && ApplyOp(tree, op) == Ok(t)
      modifies this`tree, this`steps, graph
      ensures Valid() && tree == t && steps == old(steps) + [Apply(d)]
      ensures graph.Model() == AddOp(old(graph.Model()), d, op, None)
    {
      hide SoundGraph, Reflects, Settled, ApplyOp;
      IsSensible();
      ApplyOpSettled(tree, op);
      ReflectsStep(graph.Model(), steps, tree, d, op, None);
      RootedGrows(graph.Model(), initDigest, d, op, None);
      tree := t;
      steps := steps + [Apply(d)];
      graph.AddOpAndUpdateHeads(d, op, None);
    }

    /** `add`. */
    method AddMember(id: MemberId, pk: ShareKey, d: Digest) returns (r: Result<Option<Op>>)
      requires Valid() && d !in graph.ops
      modifies this, graph
      ensures Valid() && Sensible(old(Now())) && AddsMember(old(Now()), id, pk, d, Now(), r)
      ensures r == Ok(None) <==> id in old(tree.ids)
    {
      hide Valid, Linked, OutcomeFor, SoundGraph, Down;
      IsSensible();
      if id in tree.ids {
        return Ok(None);
      }
      var prepared := PrepareTree();
      if prepared.Err? {
        return Err(prepared.error);
      }
      TreeIsLinked();
      var op := Add(id, pk, tree.nextLeaf, graph.heads, graph.addHeads);
      RecordLocal(d, op, PushLeaf(tree, id, Single(pk)));
      r := Ok(Some(op));
    }

    /** `remove`. */
    method RemoveMember(id: MemberId, d: Digest) returns (r: Result<Option<Op>>)
      requires Valid() && d !in graph.ops
      modifies this, graph
      ensures Valid() && Sensible(old(Now())) && RemovesMember(old(Now()), id, d, Now(), r)
      ensures r == Ok(None) <==> id !in old(tree.ids)
    {
      hide Valid, Linked, OutcomeFor, SoundGraph, Down, RemoveLeaf;
      IsSensible();
      if id !in tree.ids {
        return Ok(None);
      }
      var prepared := PrepareTree();
      if prepared.Err? {
        return Err(prepared.error);
      }
      TreeIsLinked();
      if |tree.ids| == 1 {
        return Err(RemoveLastMember);
      }
      var removed := RemoveId(tree, id);
      if removed.Err? {
        return Err(removed.error);
      }
      var l := tree.ids[id];
      var op := Remove(id, l, PathKeys(tree, l, tree.depth), graph.heads);
      RecordLocal(d, op, removed.value);
      r := Ok(Some(op));
    }

    /** `update`. */
    method UpdateOwn(newSk: Secret, draw: nat -> Secret, d: Digest) returns (r: Result<(Secret, Op)>)
      requires Valid() && d !in graph.ops
      modifies this, graph
      ensures Valid() && Sensible(old(Now())) && UpdatesOwn(old(Now()), newSk, draw, d, Now(), r)
    {
      hide Valid, OutcomeFor, SoundGraph, Down, EncryptedTree, EncryptedChange, RatchetN, CanEncrypt;
      IsSensible();
      var prepared := PrepareTree();
      if prepared.Err? {
        return Err(prepared.error);
      }
      LearnKey(newSk);
      TreeIsLinked();
      if ownerId !in tree.ids {
        return Err(IdentifierNotFound);
      }
      if !CanEncrypt(tree, tree.ids[ownerId]) {
        return Err(ConflictingLeaf);
      }
      OwnUpdateApplies(newSk, draw);
      var secret := RatchetN(newSk, tree.depth);
      var op := Update(ownerId, EncryptedChange(tree, ownerId, newSk, draw), graph.heads);
      RecordLocal(d, op, EncryptedTree(tree, ownerId, newSk, draw));
      r := Ok((secret, op));
    }

    method LearnKey(sk: Secret)
      requires Valid()
      modifies this`ownerSks
      ensures Valid() && ownerSks == old(ownerSks)[ShareKey(sk) := sk]
    {
      hide SoundGraph, Rooted, Reflects, Settled, Linked;
      ownerSks := ownerSks[ShareKey(sk) := sk];
    }

    lemma OwnUpdateApplies(sk: Secret, draw: nat -> Secret)
      requires Valid() && ownerId in tree.ids
      ensures Linked(tree) && tree.ids[ownerId] in tree.leaves
      ensures forall ps: set<Digest> ::
                ApplyOp(tree, Update(ownerId, EncryptedChange(tree, ownerId, sk, draw), ps))
                == Ok(EncryptedTree(tree, ownerId, sk, draw))
    {
      hide SoundGraph, Rooted, Reflects, EncryptedTree, EncryptedChange, ApplyOp;
      forall ps: set<Digest>
        ensures ApplyOp(tree, Update(ownerId, EncryptedChange(tree, ownerId, sk, draw), ps))
                == Ok(EncryptedTree(tree, ownerId, sk, draw))
      {
        Operations.OwnUpdateApplies(tree, ownerId, sk, draw, ps);
      }
    }

    // ----- Keys -----

    /** `pcs_key_from_tree_root`. */
    method PcsKeyFromTreeRoot() returns (r: Result<Secret>)
      requires Valid()
      modifies this`ownerSks
      ensures Valid() && ReadsKey(old(Now()), Now(), r)
    {
      hide SoundGraph, Rooted, Reflects, DecryptTreeSecret;
      r, ownerSks := DecryptTreeSecret(tree, ownerId, ownerSks).0, DecryptTreeSecret(tree, ownerId, ownerSks).1;
    }

    /** `derive_pcs_key_for_op`: rebuild the tree as of an operation, asserted to be an update,
        and decrypt its root. */
    method DerivePcsKeyForOp(d: Digest) returns (r: Result<Secret>)
      requires Valid()
      ensures d !in graph.ops ==> r == Err(UnknownPcsKey)
      ensures d in graph.ops && !graph.ops[d].Update? ==> r == Err(AssertionFailed)
      ensures d in graph.ops && graph.ops[d].Update? ==>
                forall past :: IsPast(graph.preds, past) ==>
                  && Down(graph.preds, Ancestors(past, {d}))
                  && var outcome := OutcomeFor(graph.Model(), Ancestors(past, {d}));
                     if outcome.Err? then r == Err(outcome.error)
                     else
                       && TreeReads(outcome.value, ownerId)
                       && r == DecryptTreeSecret(outcome.value, ownerId, ownerSks).0
    {
      hide Valid, Rooted, IsPast, Ancestors, DecryptTreeSecret, RunSteps, ReplaySteps, EpochsOf, AddsInPast, PartOf,
           Covered, Flat;
      if d !in graph.ops {
        return Err(UnknownPcsKey);
      }
      RootHere();
      ghost var g := graph.Model();
      ghost var past :| IsPast(g.preds, past) && AddsInPast(g.ops, past);
      RootedIsSingle(g, initDigest);
      SamePastsOnly(g, past, d);
      var epochs := graph.TopsortForHeads({d}, past);
      HeadsAreAncestors(past, {d});
      LastIsAsked(g, past, d);
      var last := epochs[|epochs| - 1];
      if !graph.ops[last[0]].Update? {
        return Err(AssertionFailed);
      }
      var rebuilt := RebuildFrom(epochs, past, Ancestors(past, {d}));
      if rebuilt.Err? {
        return Err(rebuilt.error);
      }
      r := rebuilt.value.PcsKeyFromTreeRoot();
    }

    /** The ancestors of an operation end with it. */
    static lemma LastIsAsked(g: OpGraph, past: Preds, d: Digest)
      requires SoundGraph(g) && IsPast(g.preds, past) && d in g.ops && Down(g.preds, Ancestors(past, {d}))
      ensures var es := EpochsOf(g.preds, Ancestors(past, {d})); es != [] && es[|es| - 1] == [d]
    {
      hide IsPast, Ancestors, CutFrom;
      WholePreds(g);
      AncestorsOfOne(g.preds, past, d);
      EndsWithHead(g.preds, past, Ancestors(past, {d}), d, {}, []);
    }

    lemma TreeIsLinked()
      requires Valid()
      ensures Linked(tree)
    {}

    lemma RootHere()
      requires Valid()
      ensures SoundGraph(graph.Model()) && Rooted(graph.Model(), initDigest)
      ensures graph.ops[initDigest] == InitAdd(originalMember.0, originalMember.1)
    {}

    lemma ReflectsHere()
      requires Valid() && !pending
      ensures Reflects(graph.Model(), steps, tree) && Linked(tree) && initDigest in graph.ops
    {}
  }
}
