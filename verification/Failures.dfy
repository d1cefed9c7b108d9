/** Two removals of one member: a replay that no order of arrival avoids, and the replica
    that cannot get past it. */
module Failures {
  import opened Seqs
  import opened Results
  import opened KeyTree
  import opened WellFormed
  import opened Operations
  import opened Epochs
  import opened Graph
  import opened Replay
  import opened EpochOutcomes
  import opened ReplicaSteps
  import opened Continuation

  // ----- Two removals of one member -----

  /** Someone absent stays absent while nobody adds them. */
  lemma {:induction false} AbsentStays(ops: map<Digest, Op>, steps: seq<Change>, epoch: seq<Digest>, id: MemberId)
    requires Covered(ops, steps) && Covered(ops, steps + ApplyEach(epoch)) && (forall d :: d in epoch ==> d in ops)
    requires RunSteps(ops, steps).Ok? && id !in RunSteps(ops, steps).value.ids
    requires forall d :: d in epoch && ops[d].Add? ==> ops[d].addedId != id
    ensures var out := RunSteps(ops, steps + ApplyEach(epoch)); out.Ok? ==> id !in out.value.ids
  {
    hide RunSteps, Covered;
    if epoch == [] {
      assert steps + ApplyEach(epoch) == steps;
    } else {
      var init, last := epoch[..|epoch| - 1], epoch[|epoch| - 1];
      assert steps + ApplyEach(epoch) == (steps + ApplyEach(init)) + [Apply(last)];
      CoveredInit(ops, steps + ApplyEach(init), Apply(last));
      AbsentStays(ops, steps, init, id);
      RunStepsSnoc(ops, steps + ApplyEach(init), Apply(last));
      if RunSteps(ops, steps + ApplyEach(init)).Ok? {
        OpKeepsAbsent(RunSteps(ops, steps + ApplyEach(init)).value, ops[last], id);
      }
    }
  }

  lemma OpKeepsAbsent(t: Tree, op: Op, id: MemberId)
    requires Linked(t) && id !in t.ids && (op.Add? ==> op.addedId != id)
    ensures ApplyOp(t, op).Ok? ==> id !in ApplyOp(t, op).value.ids
    ensures op.Remove? && op.id == id ==> ApplyOp(t, op).Err?
  {
    hide ApplyOp, FreeFrom;
    OpOnRoster(t, op);
  }

  /** Nobody adds the member between positions `i` and `j` of the epoch. */
  ghost predicate NotAddedBetween(ops: map<Digest, Op>, epoch: seq<Digest>, i: nat, j: nat, id: MemberId)
    requires j <= |epoch| && forall d :: d in epoch ==> d in ops
  {
    forall k :: i < k < j && ops[epoch[k]].Add? ==> ops[epoch[k]].addedId != id
  }

  /** An epoch that removes a member twice, without adding them in between, does not replay. */
  lemma DoubleRemoveFails(ops: map<Digest, Op>, steps: seq<Change>, epoch: seq<Digest>, i: nat, j: nat)
    requires Covered(ops, steps) && Covered(ops, steps + ApplyEach(epoch)) && (forall d :: d in epoch ==> d in ops)
    requires i < j < |epoch| && ops[epoch[i]].Remove? && ops[epoch[j]].Remove? && ops[epoch[i]].id == ops[epoch[j]].id
    requires NotAddedBetween(ops, epoch, i, j, ops[epoch[i]].id)
    ensures RunSteps(ops, steps + ApplyEach(epoch)).Err?
  {
    hide RunSteps, Covered;
    var id := ops[epoch[i]].id;
    var upTo := steps + ApplyEach(epoch[..j + 1]);
    var before := steps + ApplyEach(epoch[..j]);
    EachPrefix(epoch, j + 1);
    CoveredPrefix(ops, upTo, steps + ApplyEach(epoch));
    EachSnoc(epoch, j);
    assert upTo == before + [Apply(epoch[j])];
    CoveredInit(ops, before, Apply(epoch[j]));
    RunStepsSnoc(ops, before, Apply(epoch[j]));
    if RunSteps(ops, before).Ok? {
      GoneAfterRemove(ops, steps, epoch[..j], i);
      OpKeepsAbsent(RunSteps(ops, before).value, ops[epoch[j]], id);
    }
    ErrorsStayLater(ops, upTo, steps + ApplyEach(epoch));
  }

  lemma GoneAfterRemove(ops: map<Digest, Op>, steps: seq<Change>, epoch: seq<Digest>, i: nat)
    requires Covered(ops, steps + ApplyEach(epoch)) && (forall d :: d in epoch ==> d in ops)
    requires i < |epoch| && ops[epoch[i]].Remove? && RunSteps(ops, steps + ApplyEach(epoch)).Ok?
    requires NotAddedBetween(ops, epoch, i, |epoch|, ops[epoch[i]].id)
    ensures ops[epoch[i]].id !in RunSteps(ops, steps + ApplyEach(epoch)).value.ids
  {
    hide RunSteps, Covered;
    var before, removed := steps + ApplyEach(epoch[..i]), steps + ApplyEach(epoch[..i + 1]);
    EachSnoc(epoch, i);
    EachPrefix(epoch, i + 1);
    CoveredPrefix(ops, removed, steps + ApplyEach(epoch));
    assert removed == before + [Apply(epoch[i])];
    CoveredInit(ops, before, Apply(epoch[i]));
    RunStepsSnoc(ops, before, Apply(epoch[i]));
    if RunSteps(ops, removed).Err? {
      ErrorsStayLater(ops, removed, steps + ApplyEach(epoch));
    } else {
      RemoveRemoves(RunSteps(ops, before).value, ops[epoch[i]]);
      EachSplit(epoch, i + 1);
      assert steps + ApplyEach(epoch) == removed + ApplyEach(epoch[i + 1..]);
      forall d | d in epoch[i + 1..] && ops[d].Add?
        ensures ops[d].addedId != ops[epoch[i]].id
      {
        var k :| 0 <= k < |epoch[i + 1..]| && epoch[i + 1..][k] == d;
        assert epoch[i + 1 + k] == d;
      }
      AbsentStays(ops, removed, epoch[i + 1..], ops[epoch[i]].id);
    }
  }

  lemma RemoveRemoves(t: Tree, op: Op)
    requires Linked(t) && op.Remove? && ApplyOp(t, op).Ok?
    ensures op.id !in ApplyOp(t, op).value.ids
  {
    hide ApplyOp, FreeFrom;
    OpOnRoster(t, op);
  }

  // ----- ... anywhere in the graph -----

  /** Two operations, neither of which saw the other, remove the same member, and both saw
      every add of that member. */
  ghost predicate RemovedTwice(ops: map<Digest, Op>, past: Preds, x: Digest, y: Digest) {
    && x in ops && y in ops && x != y && x in past && y in past
    && ops[x].Remove? && ops[y].Remove? && ops[x].id == ops[y].id
    && x !in past[y] && y !in past[x]
    && forall a :: a in ops && ops[a].Add? && ops[a].addedId == ops[x].id ==> a in past[x] && a in past[y]
  }

  lemma {:induction false} InSomeEpoch(epochs: seq<seq<Digest>>, x: Digest) returns (k: nat, i: nat)
    requires x in Flat(epochs)
    ensures k < |epochs| && i < |epochs[k]| && epochs[k][i] == x
  {
    if x in epochs[0] {
      k := 0;
      i :| 0 <= i < |epochs[0]| && epochs[0][i] == x;
    } else {
      var l, m := InSomeEpoch(epochs[1..], x);
      k, i := l + 1, m;
    }
  }

  /** Concurrent operations share an epoch. */
  lemma ShareEpoch(preds: Preds, past: Preds, a: set<Digest>, x: Digest, y: Digest)
    returns (k: nat, i: nat, j: nat)
    requires IsPast(preds, past) && Down(preds, a) && x in a && y in a && x !in past[y] && y !in past[x]
    ensures var epochs := EpochsOf(preds, a);
            k < |epochs| && i < |epochs[k]| && j < |epochs[k]| && epochs[k][i] == x && epochs[k][j] == y
  {
    hide IsPast, EpochsOf, Listing, Down;
    EpochsAreExact(preds, past, a);
    var epochs := EpochsOf(preds, a);
    assert {} + ToSet(Flat(epochs)) == a;
    var m;
    k, i := InSomeEpoch(epochs, x);
    m, j := InSomeEpoch(epochs, y);
    if k != m {
      assert false;
    }
  }

  /** In a listing, whatever lies in the past of an operation comes before it. */
  lemma PastComesFirst(preds: Preds, past: Preds, r: seq<Digest>, i: nat, k: nat)
    requires IsPast(preds, past) && Listing(preds, {}, r) && i < |r| && k < |r| && r[k] in past[r[i]]
    ensures k < i
  {
    hide IsPast;
    var before := ToSet(r[..i + 1]);
    assert Down(preds, before) by {
      forall d | d in before
        ensures d in preds && preds[d] <= before
      {
        var m :| 0 <= m < i + 1 && r[m] == d;
        assert preds[r[m]] <= {} + ToSet(r[..m]);
      }
    }
    assert r[i] in r[..i + 1];
    DownHoldsPast(preds, past, before, r[i]);
    var m :| 0 <= m < i + 1 && r[m] == r[k];
    NotInOwnPast(preds, past, r[i]);
  }

  lemma NotInOwnPast(preds: Preds, past: Preds, d: Digest)
    requires IsPast(preds, past) && d in preds
    ensures d in past && d !in past[d]
  {}

  /** When two members remove the same member without having seen each other's removal, the
      replay of the graph fails, wherever the removals lie and however their digests sort. */
  lemma ConcurrentRemovesFail(g: OpGraph, past: Preds, x: Digest, y: Digest)
    requires SoundGraph(g) && Down(g.preds, g.ops.Keys) && IsPast(g.preds, past) && RemovedTwice(g.ops, past, x, y)
    ensures OutcomeFor(g, g.ops.Keys).Err?
  {
    hide SoundGraph, IsPast, EpochsOf, Down, RemovedTwice, RunSteps, ReplaySteps;
    var k, i, j := TwiceInEpoch(g, past, x, y);
    var epochs := EpochsOf(g.preds, g.ops.Keys);
    AncestorsCovered(g, g.ops.Keys);
    EpochsAreExact(g.preds, past, g.ops.Keys);
    NextReplayed(g.ops, g.preds, epochs, k);
    var steps := ReplaySteps(g.ops, epochs[..k]);
    ReplayIsCovered(g.ops, epochs[..k]);
    ReplayIsCovered(g.ops, epochs[..k + 1]);
    EachIsCovered(g.ops, steps, epochs[k]);
    DoubleRemoveFails(g.ops, steps, epochs[k], i, j);
    EpochFails(g.ops, steps, epochs[k]);
    ReplayFails(g.ops, epochs, k + 1);
  }

  /** The two removals, in the order they sort, with no add of the member between them. */
  lemma TwiceInEpoch(g: OpGraph, past: Preds, x: Digest, y: Digest) returns (k: nat, i: nat, j: nat)
    requires SoundGraph(g) && Down(g.preds, g.ops.Keys) && IsPast(g.preds, past) && RemovedTwice(g.ops, past, x, y)
    ensures var epochs := EpochsOf(g.preds, g.ops.Keys);
            && k < |epochs| && i < j < |epochs[k]| && (forall d :: d in epochs[k] ==> d in g.ops)
            && g.ops[epochs[k][i]].Remove? && g.ops[epochs[k][j]].Remove?
            && g.ops[epochs[k][i]].id == g.ops[epochs[k][j]].id
            && NotAddedBetween(g.ops, epochs[k], i, j, g.ops[epochs[k][i]].id)
  {
    hide SoundGraph, IsPast, EpochsOf, Down, Listing, Flat, NotAddedBetween;
    k, i, j := ShareEpoch(g.preds, past, g.ops.Keys, x, y);
    var epochs := EpochsOf(g.preds, g.ops.Keys);
    AncestorsCovered(g, g.ops.Keys);
    EpochsAreExact(g.preds, past, g.ops.Keys);
    NextReplayed(g.ops, g.preds, epochs, k);
    var done, epoch := Flat(epochs[..k]), epochs[k];
    AddsComeFirst(g, past, done, epoch, i, j);
    AddsComeFirst(g, past, done, epoch, j, i);
    if j < i {
      i, j := j, i;
    }
  }

  lemma AddsComeFirst(g: OpGraph, past: Preds, done: seq<Digest>, epoch: seq<Digest>, i: nat, j: nat)
    requires IsPast(g.preds, past) && Listing(g.preds, {}, done + epoch) && i < |epoch| && j < |epoch|
    requires (forall d :: d in epoch ==> d in g.ops) && epoch[i] in past && g.ops[epoch[i]].Remove?
    requires forall a :: a in g.ops && g.ops[a].Add? && g.ops[a].addedId == g.ops[epoch[i]].id ==> a in past[epoch[i]]
    ensures NotAddedBetween(g.ops, epoch, i, j, g.ops[epoch[i]].id)
  {
    hide IsPast, Listing;
    forall m | i < m < j && g.ops[epoch[m]].Add?
      ensures g.ops[epoch[m]].addedId != g.ops[epoch[i]].id
    {
      if g.ops[epoch[m]].addedId == g.ops[epoch[i]].id {
        assert (done + epoch)[|done| + i] == epoch[i] && (done + epoch)[|done| + m] == epoch[m];
        PastComesFirst(g.preds, past, done + epoch, |done| + i, |done| + m);
      }
    }
  }

  // ----- ... leaves the replica stuck -----

  /** The graph holds such a pair of removals, and it is not yet resolved. */
  ghost predicate Stuck(s: State, x: Digest, y: Digest) {
    && Sensible(s) && MustReplay(s) && x in s.graph.ops && s.graph.ops[x].Remove?
    && exists past :: IsPast(s.graph.preds, past) && RemovedTwice(s.graph.ops, past, x, y)
  }

  /** From then on every add, removal and update fails and changes nothing, and so does
      receiving an operation that follows everything the replica holds. */
  lemma StuckReplicaFails(s: State, x: Digest, y: Digest)
    requires Stuck(s, x, y)
    ensures Base(s).Err?
    ensures forall id, pk, d, s', r :: AddsMember(s, id, pk, d, s', r) && id !in s.tree.ids ==> r.Err? && s' == s
    ensures forall id, d, s', r :: RemovesMember(s, id, d, s', r) && id in s.tree.ids ==> r.Err? && s' == s
    ensures forall sk, draw, d, s', r :: UpdatesOwn(s, sk, draw, d, s', r) ==> r.Err? && s' == s
    ensures forall d, op, s', r :: Merges(s, d, op, s', r) && d !in s.graph.ops && s.graph.heads <= op.preds ==>
              r.Err? && s' == s
  {
    hide SoundGraph, IsPast, RemovedTwice, Down, OutcomeFor, Linked;
    var past :| IsPast(s.graph.preds, past) && RemovedTwice(s.graph.ops, past, x, y);
    ConcurrentRemovesFail(s.graph, past, x, y);
  }

  /** The only operation that can help is an add of the removed member: whatever else is
      received, the replica stays stuck. */
  lemma StuckStays(s: State, d: Digest, op: Op, s': State, r: Result<bool>, x: Digest, y: Digest)
    requires Stuck(s, x, y) && Merges(s, d, op, s', r)
    requires d !in s.graph.ops && op.preds <= s.graph.ops.Keys ==> Admissible(s.graph, d, op)
    requires op.Add? ==> op.addedId != s.graph.ops[x].id
    ensures Stuck(s', x, y)
  {
    hide SoundGraph, IsPast, RemovedTwice, Down, OutcomeFor, Linked, Admissible, ApplyOp, Base;
    StuckReplicaFails(s, x, y);
    if s' != s {
      var past :| IsPast(s.graph.preds, past) && RemovedTwice(s.graph.ops, past, x, y);
      GraphStaysStuck(s.graph, d, op, past, x, y);
      TreeStaysLinked(s, d, op, s', r);
      HeadsKnown(s.graph);
      StillTwoHeads(s.graph, d, op);
    }
  }

  lemma TreeStaysLinked(s: State, d: Digest, op: Op, s': State, r: Result<bool>)
    requires Sensible(s) && Merges(s, d, op, s', r)
    ensures Linked(s'.tree)
  {
    hide Linked, SoundGraph, Down, OutcomeFor;
  }

  lemma GraphStaysStuck(g: OpGraph, d: Digest, op: Op, past: Preds, x: Digest, y: Digest)
    requires SoundGraph(g) && Admissible(g, d, op) && IsPast(g.preds, past) && RemovedTwice(g.ops, past, x, y)
    requires op.Add? ==> op.addedId != g.ops[x].id
    ensures var g' := AddOp(g, d, op, Some(op.preds));
            && SoundGraph(g') && Down(g'.preds, g'.ops.Keys)
            && exists past' :: IsPast(g'.preds, past') && RemovedTwice(g'.ops, past', x, y)
  {
    hide SoundGraph, IsPast, Behind;
    AddOpSound(g, d, op, Some(op.preds));
    AddedShape(g, d, op, Some(op.preds));
    PastExtends(g.preds, past, d, op.preds);
    var g', past' := AddOp(g, d, op, Some(op.preds)), ExtendPast(past, d, op.preds);
    assert IsPast(g'.preds, past') && RemovedTwice(g'.ops, past', x, y);
    SoundIsDown(g');
  }

  /** Two such removals at the ends of the graph are enough. */
  lemma TwoRemovalsStick(s: State, past: Preds, x: Digest, y: Digest)
    requires Sensible(s) && IsPast(s.graph.preds, past) && RemovedTwice(s.graph.ops, past, x, y)
    requires {x, y} <= s.graph.heads
    ensures Stuck(s, x, y)
  {
    hide SoundGraph, IsPast, Down, Linked;
    SubsetCount({x, y}, s.graph.heads);
  }

  // ----- ... and comes about by itself -----

  /** The past of an operation that names the heads is everything. */
  lemma HeadsSeeAll(g: OpGraph, past: Preds)
    requires SoundGraph(g) && IsPast(g.preds, past)
    ensures g.heads <= g.ops.Keys && g.heads + Behind(past, g.heads) == g.ops.Keys
  {
    StatedHere(g);
    hide SoundGraph, IsPast, StatedPreds, Ends;
    HeadsKnown(g);
    forall z | z in g.ops
      ensures z in g.heads + Behind(past, g.heads)
    {
      HeadsCover(g, past, z);
    }
    BehindIsKnown(g.preds, past, g.heads);
  }

  lemma StatedHere(g: OpGraph)
    requires SoundGraph(g)
    ensures g.preds == StatedPreds(g.ops) && g.heads == Ends(g.ops) && g.preds.Keys == g.ops.Keys
  {}

  lemma BehindIsKnown(preds: Preds, past: Preds, s: set<Digest>)
    requires IsPast(preds, past)
    ensures Behind(past, s) <= preds.Keys
  {
    hide IsPast;
    PastKeys(preds, past);
    forall q | q in Behind(past, s)
      ensures q in preds
    {
      var p :| p in s && p in past && q in past[p];
      PastTransitive(preds, past, p, q);
    }
  }

  /** Two operations that each follow all of `g` and not each other. */
  lemma SeeAllButEachOther(g: OpGraph, past: Preds, x: Digest, y: Digest)
    requires SoundGraph(g) && IsPast(g.preds, past) && x !in g.ops && y !in g.ops && x != y
    ensures var past1 := ExtendPast(past, x, g.heads); var past2 := ExtendPast(past1, y, g.heads);
            && IsPast(g.preds[x := g.heads][y := g.heads], past2) && x in past2 && y in past2
            && past2[x] == g.ops.Keys && past2[y] == g.ops.Keys
  {
    StatedHere(g);
    HeadsSeeAll(g, past);
    hide SoundGraph, IsPast, StatedPreds, Ends, Behind;
    PastExtends(g.preds, past, x, g.heads);
    var past1 := ExtendPast(past, x, g.heads);
    BehindOther(past, x, g.heads + Behind(past, g.heads), g.heads);
    PastExtends(g.preds[x := g.heads], past1, y, g.heads);
  }

  /** Two members at replicas in one state remove the same member; once one of them receives
      the other's removal, it is stuck. */
  lemma RemovalsArise(s: State, m: MemberId, x: Digest, s1: State, opx: Op, y: Digest, s2: State, opy: Op, s3: State,
                      r: Result<bool>)
    requires Sensible(s) && x !in s.graph.ops && y !in s.graph.ops && x != y
    requires RemovesMember(s, m, x, s1, Ok(Some(opx))) && RemovesMember(s, m, y, s2, Ok(Some(opy)))
    requires Sensible(s1) && Merges(s1, y, opy, s3, r)
    ensures r == Ok(true) && Stuck(s3, x, y)
  {
    RemovalIs(s, m, x, s1, opx);
    RemovalIs(s, m, y, s2, opy);
    hide RemovesMember, SoundGraph, IsPast, Linked, Down, Base, Stuck, RemovedTwice, Behind, Merges;
    var g := s.graph;
    var past := SomePast(g);
    HeadsSeeAll(g, past);
    SeeAllButEachOther(g, past, x, y);
    SecondIsKept(s1, x, y, opy, s3, r);
    StatedHere(g);
    var past2 := ExtendPast(ExtendPast(past, x, g.heads), y, g.heads);
    Twice(g, x, opx, y, opy, past2);
    TwoRemovalsStick(s3, past2, x, y);
  }

  lemma SecondIsKept(s: State, x: Digest, y: Digest, op: Op, s': State, r: Result<bool>)
    requires Sensible(s) && s.graph.heads == {x} && y !in s.graph.ops && op.Remove? && x !in op.preds && x != y
    requires op.preds <= s.graph.ops.Keys && Merges(s, y, op, s', r)
    ensures r == Ok(true) && Sensible(s') && s'.graph.heads == {x, y}
    ensures s'.graph.ops == s.graph.ops[y := op] && s'.graph.preds == s.graph.preds[y := op.preds]
  {
    hide SoundGraph, Linked, Down, Base;
    assert x in s.graph.heads;
    AddOpSound(s.graph, y, op, Some(op.preds));
    SoundIsDown(s'.graph);
  }

  lemma Twice(g: OpGraph, x: Digest, opx: Op, y: Digest, opy: Op, past: Preds)
    requires x !in g.ops && y !in g.ops && x != y && opx.Remove? && opy.Remove? && opx.id == opy.id
    requires x in past && y in past && past[x] == g.ops.Keys && past[y] == g.ops.Keys
    ensures RemovedTwice(g.ops[x := opx][y := opy], past, x, y)
  {}

  lemma RemovalIs(s: State, m: MemberId, d: Digest, s': State, op: Op)
    requires Sensible(s) && RemovesMember(s, m, d, s', Ok(Some(op)))
    ensures op.Remove? && op.id == m && op.preds == s.graph.heads && s'.graph == AddOp(s.graph, d, op, None)
    ensures !s'.pending
  {
    hide SoundGraph, Linked, Down, OutcomeFor, RemoveLeaf;
  }
}
