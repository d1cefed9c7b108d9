/** What holds of the group in every reachable world: convergence, who holds a key, and that
    everyone's keys agree. */
module GroupOutcomes {
  import opened Seqs
  import opened Results
  import opened Crypto
  import opened KeyTree
  import opened WellFormed
  import opened Resolutions
  import opened Operations
  import opened History
  import opened Convergence
  import opened GroupAgreement
  import opened Epochs
  import opened Graph
  import opened ReplicaSteps
  import opened HistoryGraph
  import opened Peers
  import opened Network

  /** Replicas that have seen the same operations have the same graph and the same tree. */
  lemma PeersConverge(w: World, r: MemberId, q: MemberId)
    requires Inv(w) && r in w.peers && q in w.peers && w.peers[r].state.graph.ops == w.peers[q].state.graph.ops
    ensures w.peers[r].state.graph == w.peers[q].state.graph
    ensures SameTree(w.peers[r].state.tree, w.peers[q].state.tree)
    ensures HasKey(w.peers[r].state) <==> HasKey(w.peers[q].state)
  {
    hide Inv, Valid, NamesMaxima, HoldsKeys, Causal, Run, Represents, Maxima, SameTree, SoundGraph;
    var a, b := w.peers[r], w.peers[q];
    PeerIsFine(w, r);
    PeerIsFine(w, q);
    FollowsFacts(w.history, a);
    FollowsFacts(w.history, b);
    GraphIsFunctionOfOps(a.state.graph, b.state.graph);
    OrderDoesNotMatter(w.history, a.log, b.log);
    RootKeyIffLastUpdate(w.history, ToSet(a.log), a.state.tree);
    RootKeyIffLastUpdate(w.history, ToSet(b.log), b.state.tree);
  }

  /** The adds of a history form a chain, so there is one add-head. */
  lemma OneAddHead(h: History, ds: set<Digest>)
    requires Valid(h) && NamesMaxima(h) && Closed(h, ds) && h.root in ds
    ensures exists m :: AddEnds(OpsOf(h, ds)) == {m}
  {
    hide NamesMaxima, AddEnds, Maxima;
    assert ValidEvent(h, h.root);
    var m := LastAdd(h, ds, h.root);
    forall x
      ensures x in AddEnds(OpsOf(h, ds)) <==> x == m
    {
      OnlyLastAdd(h, ds, m, x);
    }
    assert AddEnds(OpsOf(h, ds)) == {m};
  }

  lemma {:induction false} LastAdd(h: History, ds: set<Digest>, x: Digest) returns (m: Digest)
    requires Valid(h) && Closed(h, ds) && x in ds && h.events[x].op.Add?
    ensures m in ds && h.events[m].op.Add? && forall y :: y in ds && h.events[y].op.Add? ==> y == m || y in Past(h, m)
    decreases |ds| - |Past(h, x)|
  {
    if y :| y in ds && h.events[y].op.Add? && y != x && y !in Past(h, x) {
      assert Comparable(h, x, y);
      hide Valid;
      PastIsClosed(h, y, x);
      PastIsKnown(h, x);
      SubsetCount(Past(h, x) + {x}, Past(h, y));
      SubsetCount(Past(h, y), ds);
      m := LastAdd(h, ds, y);
    } else {
      m := x;
    }
  }

  lemma OnlyLastAdd(h: History, ds: set<Digest>, m: Digest, x: Digest)
    requires Valid(h) && NamesMaxima(h) && Closed(h, ds) && m in ds && h.events[m].op.Add?
    requires forall y :: y in ds && h.events[y].op.Add? ==> y == m || y in Past(h, m)
    ensures x in AddEnds(OpsOf(h, ds)) <==> x == m
  {
    hide Valid, Maxima;
    var ops := OpsOf(h, ds);
    if x == m {
      forall e | e in ops && ops[e].Add?
        ensures m !in ops[e].addPreds
      {
        PastIsKnown(h, e);
        if m in Past(h, e) {
          PastIsClosed(h, e, m);
          PastIsKnown(h, m);
        }
      }
    } else if x in AddEnds(ops) {
      NamedByLast(h, ds, m, x);
      NamedIsNoEnd(ops, m, x);
    }
  }

  lemma NamedIsNoEnd(ops: map<Digest, Op>, m: Digest, x: Digest)
    requires m in ops && ops[m].Add? && x in ops[m].addPreds
    ensures x !in AddEnds(ops)
  {}

  /** An earlier add that nothing before the last add names is named by the last add. */
  lemma NamedByLast(h: History, ds: set<Digest>, m: Digest, x: Digest)
    requires Valid(h) && NamesMaxima(h) && Closed(h, ds) && m in ds && h.events[m].op.Add?
    requires x in Past(h, m) && x in AddEnds(OpsOf(h, ds))
    ensures x in h.events[m].op.addPreds
  {
    hide Valid, Maxima;
    PastClosed(h, m);
    assert x in AddEnds(OpsOf(h, Past(h, m)));
  }

  /** One update follows everything else in `ds`. */
  ghost predicate EndsInUpdate(h: History, ds: set<Digest>, a: Digest) {
    a in ds && a in h.events && h.events[a].op.Update? && ds == UpTo(h, a)
  }

  lemma AddHeadsCount(h: History, ds: set<Digest>, g: OpGraph)
    requires Valid(h) && NamesMaxima(h) && Closed(h, ds) && h.root in ds && GraphOf(h, ds, g)
    ensures |g.addHeads| == 1
  {
    hide Valid, NamesMaxima, Closed, AddEnds;
    OneAddHead(h, ds);
  }

  lemma RootKeyMeans(h: History, ds: set<Digest>, t: Tree)
    requires Valid(h) && Closed(h, ds) && Represents(h, ds, t)
    ensures HasRootKey(t) <==> exists a :: EndsInUpdate(h, ds, a)
  {
    hide Valid, Represents, HasRootKey;
    RootKeyIffLastUpdate(h, ds, t);
    if a :| a in ds && h.events[a].op.Update? && ds == UpTo(h, a) {
      assert EndsInUpdate(h, ds, a);
    }
  }

  /** A replica offers a key exactly when the last thing it has seen is an update that
      follows everything else. */
  lemma KeyIffLastUpdate(w: World, r: MemberId)
    requires Inv(w) && r in w.peers
    ensures HasKey(w.peers[r].state) <==> exists a :: EndsInUpdate(w.history, w.peers[r].state.graph.ops.Keys, a)
  {
    hide Inv, Valid, NamesMaxima, HoldsKeys, Causal, Run, Represents, HasRootKey, GraphOf, Maxima, EndsInUpdate,
         SoundGraph, Closed;
    var h, p := w.history, w.peers[r];
    var ds := ToSet(p.log);
    PeerIsFine(w, r);
    FollowsFacts(h, p);
    RootKeyMeans(h, ds, p.state.tree);
    RootInLog(h, p.log);
    AddHeadsCount(h, ds, p.state.graph);
    if a :| EndsInUpdate(h, ds, a) {
      EndIsHead(h, ds, a);
    }
  }

  lemma EndIsHead(h: History, ds: set<Digest>, a: Digest)
    requires Valid(h) && Closed(h, ds) && EndsInUpdate(h, ds, a)
    ensures |Maxima(h, ds)| == 1
  {
    hide Valid, Closed;
    LastIsHead(h, ds, a);
  }

  lemma RootInLog(h: History, log: seq<Digest>)
    requires Causal(h, log)
    ensures h.root in ToSet(log)
  {
    assert log[0] in log;
  }

  lemma LastIsHead(h: History, ds: set<Digest>, a: Digest)
    requires Valid(h) && Closed(h, ds) && a in h.events && ds == UpTo(h, a)
    ensures Maxima(h, ds) == {a}
  {
    hide Valid;
    PastIsKnown(h, a);
    forall y | y in ds
      ensures a !in Past(h, y)
    {
      if y != a {
        PastIsClosed(h, a, y);
      }
    }
  }

  /** Whole-run key agreement: whenever a member's replica offers a key, decrypting gives
      the secret that the author of the head update got when creating it. Members with
      the same head therefore hold the same secret. */
  lemma KeysAgree(w: World, r: MemberId) returns (a: Digest)
    requires Inv(w) && r in w.peers && HasKey(w.peers[r].state)
    ensures a in w.history.events && w.history.events[a].op.Update? && w.peers[r].state.graph.heads == {a}
    ensures var s := w.peers[r].state;
            && s.graph.ops.Keys == UpTo(w.history, a) && TreeReads(s.tree, r)
            && (r in s.tree.ids ==> DecryptTreeSecret(s.tree, r, s.sks).0 == Ok(RootSecretOf(w.history, a)))
  {
    hide Inv, Valid, NamesMaxima, HoldsKeys, Causal, Run, Represents, HasRootKey, Maxima, DecryptTreeSecret,
         RootSecretOf;
    var h, p := w.history, w.peers[r];
    PeerIsFine(w, r);
    FollowsFacts(h, p);
    a := RootIsRead(h, ToSet(p.log), p.state.tree, r, p.state.sks);
    LastIsHead(h, ToSet(p.log), a);
  }

  /** The secret `update` returns is the one everybody will decrypt for that operation. */
  lemma UpdateReturnsRootSecret(w: World, r: MemberId, seed: nat, draw: nat -> Secret, d: Digest, s: State,
                                res: Result<(Secret, Op)>)
    requires Inv(w) && r in w.peers && Sensible(w.peers[r].state) &&
             UpdatesOwn(w.peers[r].state, Fresh(seed), draw, d, s, res) && res.Ok?
    ensures res.value.1.Update?
    ensures var h := Extend(w.history, d, Event(res.value.1, BaseLog(w.peers[r]), seed));
            res.value.0 == RootSecretOf(h, d)
  {
    hide Inv, Base, BaseLog, ApplyOp;
  }

  /** Any earlier key can be derived again: rebuilding the tree as of an update a replica
      knows and decrypting it gives the secret that update's author got, for everyone who
      was a member then. */
  lemma PastKeysAgree(w: World, r: MemberId, a: Digest)
    requires Inv(w) && r in w.peers && a in w.peers[r].state.graph.ops && w.peers[r].state.graph.ops[a].Update?
    ensures a in w.history.events && w.history.events[a].op.Update?
    ensures var s := w.peers[r].state; var ds := UpTo(w.history, a);
            && SoundGraph(s.graph) && Down(s.graph.preds, ds) && ds <= s.graph.ops.Keys
            && var out := OutcomeFor(s.graph, ds);
               && out.Ok? && TreeReads(out.value, r)
               && (r in out.value.ids ==> DecryptTreeSecret(out.value, r, s.sks).0 == Ok(RootSecretOf(w.history, a)))
  {
    hide Inv, Valid, NamesMaxima, HoldsKeys, Causal, Run, Represents, HasRootKey, Maxima, DecryptTreeSecret,
         RootSecretOf, EpochsOf, Flat, SoundGraph;
    var h, p := w.history, w.peers[r];
    PeerIsFine(w, r);
    FollowsFacts(h, p);
    var ds := UpTo(h, a);
    UpToIsPart(h, ToSet(p.log), p.state.graph, a);
    ReplayIsRun(h, ToSet(p.log), p.state.graph, ds);
    var flat := Flat(EpochsOf(p.state.graph.preds, ds));
    RunRepresents(h, flat);
    var t := Run(h, flat);
    RootKeyIffLastUpdate(h, ds, t);
    var b := RootIsRead(h, ds, t, r, p.state.sks);
    SameLast(h, ds, a, b);
  }

  lemma UpToIsPart(h: History, ds: set<Digest>, g: OpGraph, a: Digest)
    requires Valid(h) && NamesMaxima(h) && Closed(h, ds) && GraphOf(h, ds, g) && a in ds
    ensures a in h.events && UpTo(h, a) <= ds && Closed(h, UpTo(h, a)) && Down(g.preds, UpTo(h, a)) && UpTo(h, a) != {}
  {
    hide Valid, Maxima, SoundGraph, NamesMaxima, IsPast, StatedPreds, OpsOf;
    PastClosed(h, a);
    GraphPreds(h, ds, g);
    forall x | x in UpTo(h, a)
      ensures x in g.preds && g.preds[x] <= UpTo(h, a)
    {
      PredsOf(h, ds, g, x);
    }
  }

  lemma PredsOf(h: History, ds: set<Digest>, g: OpGraph, x: Digest)
    requires NamesMaxima(h) && GraphOf(h, ds, g) && x in ds && x in h.events
    ensures x in g.preds && g.preds[x] <= Past(h, x)
  {
    hide NamesMaxima, Maxima;
    PredsAreMaxima(h, x);
  }

  lemma SameLast(h: History, ds: set<Digest>, a: Digest, b: Digest)
    requires Valid(h) && a in h.events && b in h.events && ds == UpTo(h, a) && ds == UpTo(h, b)
    ensures a == b
  {
    hide Valid;
    if a != b {
      assert a in UpTo(h, b) && b in UpTo(h, a);
      PastIsClosed(h, a, b);
    }
  }

  // ----- Steps that are always possible -----

  /** A member that has seen every membership change can update at any time, however many
      updates elsewhere it has not seen, and holds a key right after. */
  lemma CanUpdate(w: World, r: MemberId, seed: nat, draw: nat -> Secret, d: Digest) returns (w': World)
    requires Inv(w) && r in w.peers && r in w.peers[r].state.tree.ids && d !in w.history.events
    requires forall m :: m in w.history.events && IsMembership(w.history.events[m].op) ==> m in w.peers[r].log
    requires forall a :: a in w.history.events && !w.history.events[a].op.Remove? ==> w.history.events[a].seed != seed
    ensures Next(w, UpdateOwn(r, seed, draw, d), w') && Inv(w') && r in w'.peers && HasKey(w'.peers[r].state)
    ensures d in w'.history.events && w'.peers[r].state.graph.heads == {d}
  {
    hide Inv, Valid, NamesMaxima, HoldsKeys, Follows, Base, BaseLog, Causal, Run, SoundGraph, EncryptedTree,
         EncryptedChange, ApplyOp, Represents, CanEncrypt, WF;
    var h, p := w.history, w.peers[r];
    PeerIsFine(w, r);
    BaseIsRun(h, p);
    BaseHasSameIds(h, p);
    BaseIsWF(h, p);
    NothingExposed(h, p);
    var t := Base(p.state).value;
    WFBounds(t, r);
    OwnUpdateApplies(t, r, Fresh(seed), draw, p.state.graph.heads);
    var op := Update(r, EncryptedChange(t, r, Fresh(seed), draw), p.state.graph.heads);
    var s := State(AddOp(p.state.graph, d, op, None), EncryptedTree(t, r, Fresh(seed), draw), false, r,
                   p.state.sks[ShareKey(Fresh(seed)) := Fresh(seed)]);
    var e := Event(op, BaseLog(p), seed);
    var res := Ok((RatchetN(Fresh(seed), t.depth), op));
    assert UpdatesOwn(p.state, Fresh(seed), draw, d, s, res);
    CalmUpdate(h, p, e);
    w' := World(Extend(h, d, e), w.peers[r := Peer(s, e.order + [d])]);
    assert Records(w, r, d, e, s, w');
    assert Next(w, UpdateOwn(r, seed, draw, d), w');
    UpdateInv(w, r, seed, draw, d, w');
    KeyAfterUpdate(w', r, d);
  }

  lemma BaseIsWF(h: History, p: Peer)
    requires Valid(h) && NamesMaxima(h) && Follows(h, p) && Sensible(p.state)
    ensures Base(p.state).Ok? && WF(Base(p.state).value)
  {
    hide Valid, NamesMaxima, Base, BaseLog, Causal, Run, WF;
    BaseIsRun(h, p);
    RunRepresents(h, BaseLog(p));
  }

  /** In the tree of a causal order every leaf holds one key. */
  lemma NothingExposed(h: History, p: Peer)
    requires Valid(h) && NamesMaxima(h) && Follows(h, p) && Sensible(p.state)
    ensures Base(p.state).Ok? && forall i :: CanEncrypt(Base(p.state).value, i)
  {
    hide Valid, NamesMaxima, Base, BaseLog, Causal, Run, WF, CanEncrypt, VersionsMatch, EncrypterMatch;
    BaseIsRun(h, p);
    RunRepresents(h, BaseLog(p));
    SinglesEncrypt(h, ToSet(BaseLog(p)), Base(p.state).value);
  }

  lemma SinglesEncrypt(h: History, ds: set<Digest>, t: Tree)
    requires Valid(h) && Closed(h, ds) && Represents(h, ds, t)
    ensures forall i :: CanEncrypt(t, i)
  {
    hide Valid, VersionsMatch, LeafMatch, EncrypterMatch, WF, CanEncrypt;
    forall j | j in t.leaves
      ensures t.leaves[j].pk.Single?
    {
      LeafIsSingle(h, ds, t, j);
    }
    forall i: nat
      ensures CanEncrypt(t, i)
    {
      SinglesCanEncrypt(t, i);
    }
  }

  lemma CalmUpdate(h: History, p: Peer, e: Event)
    requires e.op.Update? && ToSet(e.order) == ToSet(p.log)
    requires forall m :: m in h.events && IsMembership(h.events[m].op) ==> m in p.log
    requires forall a :: a in h.events && !h.events[a].op.Remove? ==> h.events[a].seed != e.seed
    ensures Calm(h, e)
  {
    forall m | m in h.events && IsMembership(h.events[m].op)
      ensures m in e.order
    {
      assert m in ToSet(p.log);
      assert m in ToSet(e.order);
    }
  }

  lemma KeyAfterUpdate(w: World, r: MemberId, d: Digest)
    requires Inv(w) && r in w.peers && d in w.history.events && w.history.events[d].op.Update?
    requires w.peers[r].state.graph.heads == {d} && d in w.peers[r].state.graph.ops
    ensures HasKey(w.peers[r].state)
  {
    hide Inv, Valid, NamesMaxima, HoldsKeys, Causal, Run, Represents, HasRootKey, GraphOf, SoundGraph;
    var h, p := w.history, w.peers[r];
    PeerIsFine(w, r);
    FollowsFacts(h, p);
    HeadSeesAll(h, ToSet(p.log), d);
    KeyIffLastUpdate(w, r);
    assert EndsInUpdate(h, ToSet(p.log), d);
  }

  lemma HeadSeesAll(h: History, ds: set<Digest>, d: Digest)
    requires Valid(h) && Closed(h, ds) && Maxima(h, ds) == {d} && d in h.events
    ensures ds == UpTo(h, d)
  {
    hide Valid;
    forall x | x in ds
      ensures x in UpTo(h, d)
    {
      var m := BelowMaximum(h, ds, x);
    }
    ClosedHolds(h, ds, d);
  }

  /** Any operation whose past a replica has seen can be delivered to it. */
  lemma CanDeliver(w: World, r: MemberId, d: Digest) returns (w': World)
    requires Inv(w) && r in w.peers && d in w.history.events && Past(w.history, d) <= w.peers[r].state.graph.ops.Keys
    ensures Next(w, Deliver(r, d), w') && Inv(w')
    ensures r in w'.peers && w'.peers[r].state.graph.ops.Keys == w.peers[r].state.graph.ops.Keys + {d}
  {
    hide Inv, Valid, NamesMaxima, HoldsKeys, Follows, Base, BaseLog, Causal, Run, SoundGraph, ApplyOp, Represents,
         MergedLog;
    var h, p := w.history, w.peers[r];
    PeerIsFine(w, r);
    FollowsFacts(h, p);
    var op := h.events[d].op;
    PredsBringPast(h, ToSet(p.log), d);
    var s, res := MergeExists(p.state, d, op);
    w' := w.(peers := w.peers[r := Peer(s, MergedLog(p, d, op))]);
    assert Next(w, Deliver(r, d), w');
    DeliverInv(w, r, d, w');
    MergeFollows(h, p, d, s, res);
    PeerIsFine(w', r);
    FollowsFacts(h, w'.peers[r]);
  }

  lemma MergeExists(s: State, d: Digest, op: Op) returns (s': State, r: Result<bool>)
    requires Sensible(s)
    ensures Merges(s, d, op, s', r)
  {
    hide ApplyOp, SoundGraph, Down, Base;
    if d in s.graph.ops {
      s', r := s, Ok(false);
    } else if !(op.preds <= s.graph.ops.Keys) {
      s', r := s, Err(OutOfOrderOperation);
    } else {
      var added := s.(graph := AddOp(s.graph, d, op, Some(op.preds)));
      if !(s.graph.heads <= op.preds) {
        if s.pending || IsMembership(op) {
          s', r := added.(pending := true), Ok(true);
        } else if ApplyOp(s.tree, op).Err? {
          s', r := s, Err(ApplyOp(s.tree, op).error);
        } else {
          s', r := added.(tree := ApplyOp(s.tree, op).value, pending := false), Ok(true);
        }
      } else if Base(s).Err? {
        s', r := s, Err(Base(s).error);
      } else {
        var t := Base(s).value;
        var after := ApplyOp(t, op);
        if after.Err? {
          s', r := s.(tree := t, pending := false), Err(after.error);
        } else {
          s', r := added.(tree := after.value, pending := false), Ok(true);
        }
      }
    }
  }
}
