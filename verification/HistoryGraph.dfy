/** The operation graph of a history: what its sort and its replay amount to. */
module HistoryGraph {
  import opened Seqs
  import opened Results
  import opened Nodes
  import opened KeyTree
  import opened WellFormed
  import opened Operations
  import opened History
  import opened Convergence
  import opened GroupAgreement
  import opened Epochs
  import opened Graph
  import opened Replay
  import opened ReplicaSteps

  /** The operations of `ds` that no other one follows. */
  ghost function Maxima(h: History, ds: set<Digest>): set<Digest> {
    set x | x in ds && forall y :: y in ds && y in h.events ==> x !in Past(h, y)
  }

  /** Operations name the heads their creator saw as predecessors, and adds the add-heads. */
  ghost predicate NamesMaxima(h: History) {
    forall d :: d in h.events ==>
      && h.events[d].op.preds == Maxima(h, Past(h, d))
      && (h.events[d].op.Add? ==> h.events[d].op.addPreds == AddEnds(OpsOf(h, Past(h, d))))
  }

  ghost function OpsOf(h: History, ds: set<Digest>): map<Digest, Op> {
    map d | d in ds && d in h.events :: h.events[d].op
  }

  ghost function PastMap(h: History, ds: set<Digest>): Preds {
    map d | d in ds && d in h.events :: Past(h, d)
  }

  /** The graph of a replica that has seen exactly the operations `ds`. */
  ghost predicate GraphOf(h: History, ds: set<Digest>, g: OpGraph) {
    SoundGraph(g) && g.ops == OpsOf(h, ds)
  }

  // ----- Predecessors and pasts -----

  lemma {:induction false} BelowMaximum(h: History, ds: set<Digest>, x: Digest) returns (m: Digest)
    requires Valid(h) && Closed(h, ds) && x in ds
    ensures m in Maxima(h, ds) && (m == x || (m in h.events && x in Past(h, m)))
    decreases |ds| - |Past(h, x)|
  {
    hide Valid;
    if x in Maxima(h, ds) {
      m := x;
    } else {
      var y :| y in ds && y in h.events && x in Past(h, y);
      PastIsClosed(h, y, x);
      assert Past(h, x) + {x} <= Past(h, y);
      PastIsKnown(h, x);
      SubsetCount(Past(h, x) + {x}, Past(h, y));
      SubsetCount(Past(h, y), ds);
      m := BelowMaximum(h, ds, y);
      if m != y {
        PastIsClosed(h, m, y);
      }
    }
  }

  /** The past of an operation is its predecessors and their pasts. */
  lemma PastFromPreds(h: History, ds: set<Digest>, d: Digest)
    requires Valid(h) && NamesMaxima(h) && Closed(h, ds) && d in ds
    ensures var ps := h.events[d].op.preds; ps <= ds && Past(h, d) == ps + Behind(PastMap(h, ds), ps)
  {
    hide Valid, Closed;
    ClosedHolds(h, ds, d);
    var ps, past := h.events[d].op.preds, PastMap(h, ds);
    PastClosed(h, d);
    forall x | x in Past(h, d)
      ensures x in ps + Behind(past, ps)
    {
      var m := BelowMaximum(h, Past(h, d), x);
      if m != x {
        assert m in ps && m in past && x in past[m];
      }
    }
    forall x | x in Behind(past, ps)
      ensures x in Past(h, d)
    {
      var p :| p in ps && p in past && x in past[p];
      PastIsClosed(h, d, p);
    }
  }

  lemma ClosedHolds(h: History, ds: set<Digest>, d: Digest)
    requires Closed(h, ds) && d in ds
    ensures d in h.events && Past(h, d) <= ds
  {}

  /** The stated predecessors give exactly the causal past. */
  lemma PastOfGraph(h: History, ds: set<Digest>)
    requires Valid(h) && NamesMaxima(h) && Closed(h, ds)
    ensures IsPast(StatedPreds(OpsOf(h, ds)), PastMap(h, ds)) && AddsInPast(OpsOf(h, ds), PastMap(h, ds))
    ensures StatedPreds(OpsOf(h, ds)).Keys == ds && PastMap(h, ds).Keys == ds
  {
    hide Valid, Behind, Maxima;
    forall d | d in ds
      ensures var ps := h.events[d].op.preds;
              ps <= ds && Past(h, d) == ps + Behind(PastMap(h, ds), ps) && d !in Past(h, d)
    {
      PastFromPreds(h, ds, d);
      PastIsKnown(h, d);
    }
  }

  lemma EndsAreMaxima(h: History, ds: set<Digest>)
    requires Valid(h) && NamesMaxima(h) && Closed(h, ds)
    ensures Ends(OpsOf(h, ds)) == Maxima(h, ds)
  {
    hide Valid;
    var ops := OpsOf(h, ds);
    forall x | x in ds
      ensures x in Ends(ops) <==> x in Maxima(h, ds)
    {
      if x !in Maxima(h, ds) {
        var y :| y in ds && y in h.events && x in Past(h, y);
        PastOfGraph(h, ds);
        var z := PastHasSuccessor(StatedPreds(ops), PastMap(h, ds), x, y);
        assert z in ops && x in ops[z].preds;
      }
      if x !in Ends(ops) {
        var e :| e in ops && x in ops[e].preds;
        assert x in Past(h, e);
      }
    }
  }

  /** Predecessors known means the whole past is known. */
  lemma PredsBringPast(h: History, ds: set<Digest>, d: Digest)
    requires Valid(h) && NamesMaxima(h) && Closed(h, ds) && d in h.events
    ensures h.events[d].op.preds <= ds <==> Past(h, d) <= ds
  {
    hide Valid;
    PastClosed(h, d);
    if h.events[d].op.preds <= ds {
      forall x | x in Past(h, d)
        ensures x in ds
      {
        var m := BelowMaximum(h, Past(h, d), x);
        ClosedHolds(h, ds, m);
      }
    }
  }

  // ----- Concurrency -----

  /** An operation whose predecessors include every head follows everything. */
  lemma FollowsAll(h: History, ds: set<Digest>, d: Digest)
    requires Valid(h) && NamesMaxima(h) && Closed(h, ds) && d in h.events && d !in ds && Past(h, d) <= ds
    ensures Maxima(h, ds) <= h.events[d].op.preds <==> Past(h, d) == ds
  {
    hide Valid, NamesMaxima;
    PredsAreMaxima(h, d);
    PastClosed(h, d);
    if Maxima(h, ds) <= h.events[d].op.preds {
      forall x | x in ds
        ensures x in Past(h, d)
      {
        var m := BelowMaximum(h, ds, x);
        ClosedHolds(h, Past(h, d), m);
      }
    }
  }

  lemma PredsAreMaxima(h: History, d: Digest)
    requires NamesMaxima(h) && d in h.events
    ensures h.events[d].op.preds == Maxima(h, Past(h, d)) && h.events[d].op.preds <= Past(h, d)
  {}

  /** A membership change is never concurrent with anything. */
  lemma MembershipFollowsAll(h: History, ds: set<Digest>, d: Digest)
    requires Valid(h) && Closed(h, ds) && d in h.events && d !in ds && Past(h, d) <= ds && IsMembership(h.events[d].op)
    ensures Past(h, d) == ds
  {
    hide Valid;
    PastClosed(h, d);
    AllIsPast(h, ds, d);
  }

  // ----- The sorted graph is a causal order -----

  lemma GraphPreds(h: History, ds: set<Digest>, g: OpGraph)
    requires Valid(h) && NamesMaxima(h) && Closed(h, ds) && GraphOf(h, ds, g)
    ensures g.ops.Keys == ds && IsPast(g.preds, PastMap(h, ds)) && g.heads == Maxima(h, ds) && g.preds.Keys == ds
    ensures PastMap(h, ds).Keys == ds && Down(g.preds, ds)
  {
    hide Valid, NamesMaxima, IsPast, AddsInPast, Ends, Maxima;
    PastOfGraph(h, ds);
    EndsAreMaxima(h, ds);
    AllIsDown(g.preds, PastMap(h, ds));
  }

  /** A listing of a closed set in graph order is a causal order. */
  lemma ListingIsCausal(h: History, ds: set<Digest>, preds: Preds, r: seq<Digest>)
    requires Valid(h) && NamesMaxima(h) && Closed(h, ds) && ds != {} && preds == StatedPreds(OpsOf(h, ds))
    requires Listing(preds, {}, r) && ToSet(r) == ds
    ensures Causal(h, r)
  {
    hide Valid, NamesMaxima, Closed, Listing, IsPast, AddsInPast, OpsOf, PastMap, StatedPreds;
    PastOfGraph(h, ds);
    ListingDistinct(preds, r);
    forall k | 0 <= k < |r|
      ensures r[k] in h.events && Past(h, r[k]) <= ToSet(r[..k])
    {
      PrefixHoldsPast(h, ds, preds, r, k);
    }
    assert |r| > 0;
    assert Past(h, r[0]) <= ToSet(r[..0]) == {};
    OnlyRootIsFirst(h, r[0]);
    forall d | d in r
      ensures d in h.events
    {
      var k :| 0 <= k < |r| && r[k] == d;
    }
  }

  lemma ListingDistinct(preds: Preds, r: seq<Digest>)
    requires Listing(preds, {}, r)
    ensures Distinct(r)
  {}

  lemma PrefixHoldsPast(h: History, ds: set<Digest>, preds: Preds, r: seq<Digest>, k: nat)
    requires Valid(h) && NamesMaxima(h) && Closed(h, ds) && preds == StatedPreds(OpsOf(h, ds)) && k < |r|
    requires IsPast(preds, PastMap(h, ds)) && Listing(preds, {}, r)
    ensures r[k] in h.events && Past(h, r[k]) <= ToSet(r[..k])
  {
    hide Valid, NamesMaxima, IsPast, Closed;
    var a, past := ToSet(r[..k]), PastMap(h, ds);
    PrefixIsDown(preds, r, k);
    assert r[k] in preds;
    PastFromPreds(h, ds, r[k]);
    forall x | x in Past(h, r[k])
      ensures x in a
    {
      if x !in preds[r[k]] {
        var p :| p in preds[r[k]] && p in past && x in past[p];
        DownHoldsPast(preds, past, a, p);
      }
    }
  }

  lemma PrefixIsDown(preds: Preds, r: seq<Digest>, k: nat)
    requires Listing(preds, {}, r) && k < |r|
    ensures Down(preds, ToSet(r[..k])) && r[k] in preds && preds[r[k]] <= ToSet(r[..k])
  {
    forall d | d in ToSet(r[..k])
      ensures d in preds && preds[d] <= ToSet(r[..k])
    {
      var j :| 0 <= j < k && r[j] == d;
      assert {} + ToSet(r[..j]) <= ToSet(r[..k]);
    }
    assert {} + ToSet(r[..k]) == ToSet(r[..k]);
  }

  lemma OnlyRootIsFirst(h: History, d: Digest)
    requires Valid(h) && d in h.events && Past(h, d) == {}
    ensures d == h.root
  {
    hide Valid;
    PastNotEmpty(h, d);
  }

  lemma PastNotEmpty(h: History, d: Digest)
    requires Valid(h) && d in h.events
    ensures d == h.root || Past(h, d) != {}
  {
    assert ValidEvent(h, d);
    if d != h.root {
      assert h.events[d].order[0] in Past(h, d);
    }
  }

  // ----- Replaying a history -----

  /** Membership changes are epochs of their own, so a replay never sorts leaves. */
  lemma EpochsArePlain(h: History, ds: set<Digest>, preds: Preds, a: set<Digest>, k: nat)
    requires Valid(h) && NamesMaxima(h) && Closed(h, ds) && preds == StatedPreds(OpsOf(h, ds)) && Down(preds, a) &&
             a <= ds
    requires k < |EpochsOf(preds, a)| && (forall d :: d in EpochsOf(preds, a)[k] ==> d in OpsOf(h, ds))
    ensures |EpochsOf(preds, a)[k]| == 1 || AllUpdates(OpsOf(h, ds), EpochsOf(preds, a)[k])
  {
    hide Valid, NamesMaxima, IsPast, EpochsOf, AddsInPast, Antichains, ComparableWithAll;
    var epochs, past := EpochsOf(preds, a), PastMap(h, ds);
    PastOfGraph(h, ds);
    PredsAreAntichains(h, ds, preds);
    EpochsAreExact(preds, past, a);
    forall d | d in epochs[k] && !h.events[d].op.Update?
      ensures epochs[k] == [d]
    {
      InFlat(epochs, k, d);
      assert d in {} + ToSet(Flat(epochs));
      MembershipComparable(h, ds, a, d);
      ComparableIsSole(preds, past, a, d);
      SoleEpoch(preds, epochs, k, d);
    }
  }

  lemma MembershipComparable(h: History, ds: set<Digest>, a: set<Digest>, d: Digest)
    requires Valid(h) && Closed(h, ds) && a <= ds && d in a && d in h.events && IsMembership(h.events[d].op)
    requires PastMap(h, ds).Keys == ds
    ensures ComparableWithAll(PastMap(h, ds), a, d)
  {
    forall y | y in a
      ensures y == d || d in PastMap(h, ds)[y] || y in PastMap(h, ds)[d]
    {
      assert y in h.events && Comparable(h, d, y);
    }
  }

  lemma PredsAreAntichains(h: History, ds: set<Digest>, preds: Preds)
    requires Valid(h) && NamesMaxima(h) && Closed(h, ds) && preds == StatedPreds(OpsOf(h, ds))
    requires PastMap(h, ds).Keys == preds.Keys
    ensures Antichains(preds, PastMap(h, ds))
  {
    hide Valid;
    forall y, p, r | y in preds && p in preds[y] && r in preds[y] && r in PastMap(h, ds)
      ensures p !in PastMap(h, ds)[r]
    {
      assert p in Maxima(h, Past(h, y)) && r in Past(h, y);
    }
  }

  /** In a list without repetition only one epoch holds an operation. */
  lemma SoleEpoch(preds: Preds, epochs: seq<seq<Digest>>, k: nat, d: Digest)
    requires Listing(preds, {}, Flat(epochs)) && [d] in epochs && k < |epochs| && d in epochs[k]
    ensures epochs[k] == [d]
  {
    var j :| 0 <= j < |epochs| && epochs[j] == [d];
    if j != k {
      RepeatedInFlat(epochs, if j < k then j else k, if j < k then k else j, d);
    }
  }

  lemma RepeatedInFlat(epochs: seq<seq<Digest>>, j: nat, k: nat, d: Digest)
    requires j < k < |epochs| && d in epochs[j] && d in epochs[k]
    ensures !Distinct(Flat(epochs))
  {
    FlatUpTo(epochs, j);
    var front, back := Flat(epochs[..j + 1]), Flat(epochs[j + 1..]);
    assert epochs[j + 1..][k - j - 1] == epochs[k];
    InFlat(epochs[j + 1..], k - j - 1, d);
    assert d in front && d in back;
    var x :| 0 <= x < |front| && front[x] == d;
    var y :| 0 <= y < |back| && back[y] == d;
    assert Flat(epochs)[x] == d && Flat(epochs)[|front| + y] == d;
  }

  lemma {:induction false} PlainReplay(ops: map<Digest, Op>, epochs: seq<seq<Digest>>)
    requires forall d :: d in Flat(epochs) ==> d in ops
    requires forall k :: 0 <= k < |epochs| ==> Plain(ops, epochs[k])
    ensures ReplaySteps(ops, epochs) == ApplyEach(Flat(epochs))
  {
    if epochs != [] {
      var init, last := epochs[..|epochs| - 1], epochs[|epochs| - 1];
      FlatInit(epochs);
      PlainReplay(ops, init);
      EachAppend(Flat(init), last);
      assert Plain(ops, last);
    }
  }

  /** An epoch that needs no sort. */
  ghost predicate Plain(ops: map<Digest, Op>, epoch: seq<Digest>) {
    |epoch| == 1 || ((forall d :: d in epoch ==> d in ops) && AllUpdates(ops, epoch))
  }

  /** In a causal order no operation fails. */
  lemma OpSucceeds(h: History, ds: set<Digest>, t: Tree, b: Digest)
    requires Valid(h) && Closed(h, ds) && b in h.events && b !in ds && Past(h, b) <= ds && b != h.root
    requires Linked(t) && Represents(h, ds, t)
    ensures ApplyOp(t, h.events[b].op).Ok?
  {
    hide Valid, VersionsMatch, LeafMatch, WF, Bounded, EncrypterMatch, Causal;
    if h.events[b].op.Remove? {
      PastClosed(h, b);
      CreatorIsCausal(h, b);
      RunRepresents(h, h.events[b].order);
      ShapeAgrees(h, ds, t, b, Run(h, h.events[b].order));
      CreatorRemoves(h, b);
    } else if h.events[b].op.Update? {
      UpdateInside(h, ds, t, b);
    }
  }

  /** An update made in the tree of its past names a leaf inside every tree it reaches. */
  lemma UpdateInside(h: History, ds: set<Digest>, t: Tree, b: Digest)
    requires Valid(h) && Closed(h, ds) && b in h.events && b !in ds && Past(h, b) <= ds && b != h.root
    requires Represents(h, ds, t) && h.events[b].op.Update?
    ensures h.events[b].op.change.leafIdx < Pow2(t.depth) && Linked(t) && ApplyOp(t, h.events[b].op).Ok?
  {
    hide Valid, VersionsMatch, LeafMatch, Bounded, EncrypterMatch, Causal, ApplyOp;
    PastClosed(h, b);
    CreatorIsCausal(h, b);
    RunRepresents(h, h.events[b].order);
    UpdateFits(h, ds, t, b, Run(h, h.events[b].order));
  }

  lemma CreatorRemoves(h: History, b: Digest)
    requires Valid(h) && b in h.events && b != h.root && h.events[b].op.Remove? && Known(h, h.events[b].order)
    ensures var u := Run(h, h.events[b].order); h.events[b].op.id in u.ids && |u.ids| != 1
  {
    assert ValidEvent(h, b);
  }

  /** Applying the operations in a causal order, one step each, is running that order. */
  lemma {:induction false} StepsAreRun(h: History, ops: map<Digest, Op>, order: seq<Digest>)
    requires Valid(h) && Causal(h, order) && forall d :: d in order ==> d in ops && ops[d] == h.events[d].op
    ensures Covered(ops, ApplyEach(order)) && RunSteps(ops, ApplyEach(order)) == Ok(Run(h, order))
  {
    hide Valid, Causal, Represents, ApplyOp, RunSteps, Covered, Linked;
    CausalKnown(h, order);
    var init, b := order[..|order| - 1], order[|order| - 1];
    if |order| == 1 {
      RootSteps(h, ops, order);
    } else {
      LastIsReady(h, order);
      StepsAreRun(h, ops, init);
      RunRepresents(h, init);
      OpSucceeds(h, ToSet(init), Run(h, init), b);
      RunStepsSnoc(ops, ApplyEach(init), Apply(b));
      assert ApplyEach(order) == ApplyEach(init) + [Apply(b)];
    }
  }

  lemma CausalKnown(h: History, order: seq<Digest>)
    requires Causal(h, order)
    ensures |order| > 0 && Known(h, order) && order[0] == h.root
  {}

  lemma RootSteps(h: History, ops: map<Digest, Op>, order: seq<Digest>)
    requires Valid(h) && Causal(h, order) && |order| == 1 &&
             (forall d :: d in order ==> d in ops && ops[d] == h.events[d].op)
    ensures Covered(ops, ApplyEach(order)) && RunSteps(ops, ApplyEach(order)) == Ok(Run(h, order))
  {
    hide Valid;
    RootFacts(h);
    assert order == [h.root];
    assert ApplyEach(order) == [] + [Apply(h.root)];
    RunStepsSnoc(ops, [], Apply(h.root));
    EmptyLinked();
    assert RunSteps(ops, []) == Ok(EmptyTree());
  }

  /** Eager refines replay: rebuilding from the sorted ancestors `a` of some heads gives the
      tree of a causal order of exactly those operations. */
  lemma ReplayIsRun(h: History, ds: set<Digest>, g: OpGraph, a: set<Digest>)
    requires Valid(h) && NamesMaxima(h) && Closed(h, ds) && GraphOf(h, ds, g) && Closed(h, a) && a <= ds && a != {}
    requires Down(g.preds, a) && a <= g.ops.Keys
    ensures var flat := Flat(EpochsOf(g.preds, a));
            && Causal(h, flat) && ToSet(flat) == a && Known(h, flat)
            && OutcomeFor(g, a) == Ok(Run(h, flat))
  {
    hide Valid, NamesMaxima, SoundGraph, IsPast, EpochsOf, Listing, Causal, RunSteps, ReplaySteps, Flat, AddsInPast,
         Closed;
    var flat := Flat(EpochsOf(g.preds, a));
    var past := PastMap(h, ds);
    SoundPreds(g);
    GraphPreds(h, ds, g);
    EpochsAreExact(g.preds, past, a);
    assert {} + ToSet(flat) == ToSet(flat);
    SmallerListing(h, ds, a, flat);
    ListingIsCausal(h, a, StatedPreds(OpsOf(h, a)), flat);
    AncestorsCovered(g, a);
    forall k | 0 <= k < |EpochsOf(g.preds, a)|
      ensures Plain(g.ops, EpochsOf(g.preds, a)[k])
    {
      EpochIsKnown(EpochsOf(g.preds, a), k, g.ops);
      EpochsArePlain(h, ds, g.preds, a, k);
    }
    PlainReplay(g.ops, EpochsOf(g.preds, a));
    FlatIsKnown(h, ds, flat, a);
    StepsAreRun(h, g.ops, flat);
  }

  lemma SoundPreds(g: OpGraph)
    requires SoundGraph(g)
    ensures g.preds == StatedPreds(g.ops)
  {}

  lemma FlatIsKnown(h: History, ds: set<Digest>, flat: seq<Digest>, a: set<Digest>)
    requires Closed(h, ds) && a <= ds && ToSet(flat) == a
    ensures Known(h, flat) && forall d :: d in flat ==> d in OpsOf(h, ds) && OpsOf(h, ds)[d] == h.events[d].op
  {
    forall d | d in flat
      ensures d in h.events && d in OpsOf(h, ds)
    {
      assert d in ToSet(flat);
    }
  }

  lemma EpochIsKnown(epochs: seq<seq<Digest>>, k: nat, ops: map<Digest, Op>)
    requires k < |epochs| && forall d :: d in Flat(epochs) ==> d in ops
    ensures forall d :: d in epochs[k] ==> d in ops
  {
    forall d | d in epochs[k]
      ensures d in ops
    {
      InFlat(epochs, k, d);
    }
  }

  /** A listing of a closed part in the whole graph is one in the part's own graph. */
  lemma SmallerListing(h: History, ds: set<Digest>, a: set<Digest>, r: seq<Digest>)
    requires Closed(h, ds) && a <= ds && ToSet(r) == a && Listing(StatedPreds(OpsOf(h, ds)), {}, r)
    ensures Listing(StatedPreds(OpsOf(h, a)), {}, r)
  {
    var p, q := StatedPreds(OpsOf(h, ds)), StatedPreds(OpsOf(h, a));
    forall k | 0 <= k < |r|
      ensures r[k] in q && q[r[k]] <= {} + ToSet(r[..k])
    {
      assert r[k] in ToSet(r) && r[k] in p && p[r[k]] == q[r[k]];
    }
  }
}
