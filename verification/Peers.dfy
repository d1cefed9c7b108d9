/** A replica inside a history: delivering an operation, or creating one, keeps its tree the
    outcome of a causal order of exactly the operations it has seen. */
module Peers {
  import opened Seqs
  import opened Results
  import opened Operations
  import opened History
  import opened Convergence
  import opened GroupAgreement
  import opened Epochs
  import opened Graph
  import opened ReplicaSteps
  import opened HistoryGraph

  /** A replica and the order in which its tree came about. */
  datatype Peer = Peer(state: State, log: seq<Digest>)

  ghost predicate Follows(h: History, p: Peer) {
    && Causal(h, p.log) && GraphOf(h, ToSet(p.log), p.state.graph)
    && !p.state.pending && p.state.tree == Run(h, p.log)
  }

  lemma FollowsFacts(h: History, p: Peer)
    requires Valid(h) && NamesMaxima(h) && Follows(h, p)
    ensures var ds := ToSet(p.log);
            && Sensible(p.state) && Closed(h, ds) && p.state.graph.ops.Keys == ds && ds != {}
            && p.state.graph.heads == Maxima(h, ds) && Down(p.state.graph.preds, ds)
            && Represents(h, ds, p.state.tree) && Known(h, p.log)
  {
    hide Valid, NamesMaxima, Maxima, Represents, GraphOf, SoundGraph;
    RunRepresents(h, p.log);
    GraphPreds(h, ToSet(p.log), p.state.graph);
    GraphIsSound(h, ToSet(p.log), p.state.graph);
    assert p.log[0] in ToSet(p.log);
  }

  lemma GraphIsSound(h: History, ds: set<Digest>, g: OpGraph)
    requires GraphOf(h, ds, g)
    ensures SoundGraph(g) && g.ops == OpsOf(h, ds)
  {}

  /** The order behind the tree that the next operation is applied to. */
  ghost function BaseLog(p: Peer): seq<Digest>
    requires Sensible(p.state)
  {
    if MustReplay(p.state) then Flat(EpochsOf(p.state.graph.preds, p.state.graph.ops.Keys)) else p.log
  }

  /** Replaying never fails, and gives the tree of a causal order of the same operations. */
  lemma BaseIsRun(h: History, p: Peer)
    requires Valid(h) && NamesMaxima(h) && Follows(h, p)
    ensures Sensible(p.state)
    ensures var log := BaseLog(p);
            && Causal(h, log) && ToSet(log) == ToSet(p.log) && Known(h, log)
            && Base(p.state) == Ok(Run(h, log))
  {
    hide Valid, NamesMaxima, Represents, SoundGraph, EpochsOf, OutcomeFor, Causal, Flat;
    FollowsFacts(h, p);
    if MustReplay(p.state) {
      ReplayIsRun(h, ToSet(p.log), p.state.graph, ToSet(p.log));
    }
  }

  /** Eager refines replay: whatever order operations arrived in, the eager tree equals the
      tree rebuilt from the sorted graph, up to the order of versions inside a store. */
  lemma EagerRefinesReplay(h: History, p: Peer)
    requires Valid(h) && NamesMaxima(h) && Follows(h, p)
    ensures Sensible(p.state)
    ensures var replayed := OutcomeFor(p.state.graph, p.state.graph.ops.Keys);
            replayed.Ok? && SameTree(p.state.tree, replayed.value)
  {
    hide Valid, NamesMaxima, Represents, SoundGraph, EpochsOf, OutcomeFor, Causal, Flat, SameTree;
    FollowsFacts(h, p);
    ReplayIsRun(h, ToSet(p.log), p.state.graph, ToSet(p.log));
    OrderDoesNotMatter(h, p.log, Flat(EpochsOf(p.state.graph.preds, p.state.graph.ops.Keys)));
  }

  // ----- Extending an order by one operation -----

  lemma CausalSnoc(h: History, log: seq<Digest>, d: Digest)
    requires Causal(h, log) && d in h.events && d !in log && Past(h, d) <= ToSet(log)
    ensures Causal(h, log + [d]) && ToSet(log + [d]) == ToSet(log) + {d}
  {
    var longer := log + [d];
    forall j | 0 <= j < |longer|
      ensures Past(h, longer[j]) <= ToSet(longer[..j])
    {
      if j < |log| {
        assert longer[..j] == log[..j];
      } else {
        assert longer[..j] == log;
      }
    }
  }

  lemma RunSnoc(h: History, log: seq<Digest>, d: Digest)
    requires Known(h, log) && d in h.events
    ensures Known(h, log + [d]) && Run(h, log + [d]) == Step(Run(h, log), h.events[d].op)
  {
    assert (log + [d])[..|log|] == log;
  }

  lemma OpsSnoc(h: History, ds: set<Digest>, d: Digest)
    requires d in h.events && ds <= h.events.Keys
    ensures OpsOf(h, ds + {d}) == OpsOf(h, ds)[d := h.events[d].op]
  {}

  /** Applying one more operation of the history to the tree of a causal order. */
  lemma AppliedFollows(h: History, p: Peer, log: seq<Digest>, d: Digest, s: State, external: Option<set<Digest>>)
    requires Valid(h) && NamesMaxima(h) && Causal(h, log) && Known(h, log) && GraphOf(h, ToSet(log), p.state.graph)
    requires d in h.events && d !in ToSet(log) && Past(h, d) <= ToSet(log) && d != h.root
    requires !s.pending && ApplyOp(Run(h, log), h.events[d].op) == Ok(s.tree)
    requires s.graph == AddOp(p.state.graph, d, h.events[d].op, external)
    requires external == Some(h.events[d].op.preds) || (external == None && NamesHeads(p.state.graph, h.events[d].op))
    ensures Follows(h, Peer(s, log + [d])) && ToSet(log + [d]) == ToSet(log) + {d}
  {
    hide Valid, NamesMaxima, SoundGraph, Causal, NamesHeads, OpsOf;
    CausalSnoc(h, log, d);
    RunSnoc(h, log, d);
    CausalIsClosed(h, log);
    KnownOps(h, ToSet(log));
    OpsSnoc(h, ToSet(log), d);
    AdmitNext(h, ToSet(log), p.state.graph, d, external);
    AddOpSound(p.state.graph, d, h.events[d].op, external);
  }

  lemma KnownOps(h: History, ds: set<Digest>)
    requires Closed(h, ds)
    ensures ds <= h.events.Keys && OpsOf(h, ds).Keys == ds
  {}

  /** The graph admits every operation whose past it holds. */
  lemma AdmitNext(h: History, ds: set<Digest>, g: OpGraph, d: Digest, external: Option<set<Digest>>)
    requires Valid(h) && NamesMaxima(h) && Closed(h, ds) && GraphOf(h, ds, g) && d in h.events && d !in ds &&
             Past(h, d) <= ds
    requires external == Some(h.events[d].op.preds) || (external == None && NamesHeads(g, h.events[d].op))
    ensures MayAdd(g, d, h.events[d].op, external)
  {
    hide Valid, SoundGraph, Maxima;
    var op := h.events[d].op;
    KnownOps(h, ds);
    if external != None {
      GraphPreds(h, ds, g);
      PastWithin(h, ds, d);
      forall past | op.Add? && IsPast(g.preds, past)
        ensures op.addPreds <= op.preds + Behind(past, op.preds)
      {
        SamePasts(h, ds, g, past, op.preds);
      }
    }
  }

  lemma PastWithin(h: History, ds: set<Digest>, d: Digest)
    requires Valid(h) && NamesMaxima(h) && Closed(h, ds) && d in h.events && d !in ds && Past(h, d) <= ds
    ensures h.events[d].op.preds <= ds &&
            Past(h, d) == h.events[d].op.preds + Behind(PastMap(h, ds), h.events[d].op.preds)
  {
    hide Valid, NamesMaxima, Behind, Maxima;
    PredsAreMaxima(h, d);
    PastClosed(h, d);
    ClosedSnoc(h, ds, d);
    PastFromPreds(h, ds + {d}, d);
    SmallerPastMap(h, ds, d, h.events[d].op.preds);
  }

  lemma ClosedSnoc(h: History, ds: set<Digest>, d: Digest)
    requires Closed(h, ds) && d in h.events && Past(h, d) <= ds
    ensures Closed(h, ds + {d})
  {}

  lemma SmallerPastMap(h: History, ds: set<Digest>, d: Digest, ps: set<Digest>)
    requires ps <= ds && d !in ds
    ensures Behind(PastMap(h, ds + {d}), ps) == Behind(PastMap(h, ds), ps)
  {
    var big, small := PastMap(h, ds + {d}), PastMap(h, ds);
    forall q
      ensures q in Behind(big, ps) <==> q in Behind(small, ps)
    {
      if q in Behind(big, ps) {
        var p :| p in ps && p in big && q in big[p];
        assert p in small && q in small[p];
      }
      if q in Behind(small, ps) {
        var p :| p in ps && p in small && q in small[p];
        assert p in big && q in big[p];
      }
    }
  }

  lemma SamePasts(h: History, ds: set<Digest>, g: OpGraph, past: Preds, ps: set<Digest>)
    requires IsPast(g.preds, PastMap(h, ds)) && IsPast(g.preds, past) && ps <= g.preds.Keys
    ensures Behind(past, ps) == Behind(PastMap(h, ds), ps)
  {
    forall q | q in ps
      ensures q in past && q in PastMap(h, ds) && past[q] == PastMap(h, ds)[q]
    {
      PastUnique(g.preds, past, PastMap(h, ds), q);
    }
    SameBehind(past, PastMap(h, ds), ps);
  }

  // ----- Delivery -----

  /** The order after a delivery. */
  ghost function MergedLog(p: Peer, d: Digest, op: Op): seq<Digest>
    requires Sensible(p.state)
  {
    if d in p.state.graph.ops || !(op.preds <= p.state.graph.ops.Keys) then p.log
    else if !(p.state.graph.heads <= op.preds) then p.log + [d]
    else BaseLog(p) + [d]
  }

  /** Delivering an operation keeps the replica a follower. It is never deferred: only
      updates arrive concurrently. One whose predecessors are missing is refused. */
  lemma MergeFollows(h: History, p: Peer, d: Digest, s: State, r: Result<bool>)
    requires Valid(h) && NamesMaxima(h) && Follows(h, p) && d in h.events && Sensible(p.state)
    requires Merges(p.state, d, h.events[d].op, s, r)
    ensures Follows(h, Peer(s, MergedLog(p, d, h.events[d].op)))
    ensures var ds := ToSet(p.log);
            if d in ds then r == Ok(false) && s == p.state
            else if !(Past(h, d) <= ds) then r == Err(OutOfOrderOperation) && s == p.state
            else r == Ok(true) && ToSet(MergedLog(p, d, h.events[d].op)) == ds + {d}
  {
    hide Valid, NamesMaxima, Represents, SoundGraph, EpochsOf, OutcomeFor, Causal, Flat, Maxima, Run, ApplyOp, GraphOf,
         BaseLog, Base;
    FollowsFacts(h, p);
    var ds, op := ToSet(p.log), h.events[d].op;
    PredsBringPast(h, ds, d);
    if d !in ds && op.preds <= ds {
      FollowsAll(h, ds, d);
      RootIsThere(h, p.log, d);
      if !(p.state.graph.heads <= op.preds) {
        if IsMembership(op) {
          MembershipFollowsAll(h, ds, d);
        }
        OpSucceeds(h, ds, p.state.tree, d);
        AppliedFollows(h, p, p.log, d, s, Some(op.preds));
      } else {
        BaseIsRun(h, p);
        var log := BaseLog(p);
        RunRepresents(h, log);
        OpSucceeds(h, ToSet(log), Run(h, log), d);
        AppliedFollows(h, p, log, d, s, Some(op.preds));
      }
    }
  }

  lemma RootIsThere(h: History, log: seq<Digest>, d: Digest)
    requires Causal(h, log) && d !in ToSet(log)
    ensures d != h.root
  {
    assert log[0] in ToSet(log);
  }
}
