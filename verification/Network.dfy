/** The whole group as a state machine: members create operations on their own replicas and
    operations are delivered to replicas in any order.

    The one restriction on the environment is that membership changes are not concurrent
    with anything: they are made by a replica that has seen every operation, and afterwards
    members create operations only once they have seen the change. Updates may be
    concurrent without limit. */
module Network {
  import opened Seqs
  import opened Results
  import opened Nodes
  import opened Crypto
  import opened KeyTree
  import opened Agreement
  import opened WellFormed
  import opened Operations
  import opened History
  import opened Convergence
  import opened GroupAgreement
  import opened Epochs
  import opened Graph
  import opened Replay
  import opened ReplicaSteps
  import opened HistoryGraph
  import opened Peers

  /** Everything that ever happened, and the replica of each member. */
  datatype World = World(history: History, peers: map<MemberId, Peer>)

  // ----- Growing a history -----

  ghost predicate Grows(h: History, h': History) {
    h'.root == h.root && forall d :: d in h.events ==> d in h'.events && h'.events[d] == h.events[d]
  }

  ghost function Extend(h: History, d: Digest, e: Event): History {
    h.(events := h.events[d := e])
  }

  lemma {:induction false} RunGrows(h: History, h': History, order: seq<Digest>)
    requires Grows(h, h') && Known(h, order)
    ensures Known(h', order) && Run(h', order) == Run(h, order)
  {
    if order != [] {
      RunGrows(h, h', order[..|order| - 1]);
    }
  }

  lemma CausalGrows(h: History, h': History, order: seq<Digest>)
    requires Grows(h, h') && Causal(h, order)
    ensures Causal(h', order) && Known(h, order) && Known(h', order) && Run(h', order) == Run(h, order)
  {
    RunGrows(h, h', order);
  }

  lemma FollowsGrows(h: History, h': History, p: Peer)
    requires Grows(h, h') && Follows(h, p)
    ensures Follows(h', p)
  {
    hide SoundGraph, Causal, Run;
    CausalGrows(h, h', p.log);
    OpsGrow(h, h', p.log);
  }

  lemma OpsGrow(h: History, h': History, order: seq<Digest>)
    requires Grows(h, h') && Known(h, order)
    ensures OpsOf(h', ToSet(order)) == OpsOf(h, ToSet(order))
  {}

  lemma EventGrows(h: History, h': History, d: Digest)
    requires Valid(h) && Grows(h, h') && d in h.events
    ensures ValidEvent(h', d) && Past(h', d) == Past(h, d)
  {
    assert ValidEvent(h, d);
    if d != h.root {
      CausalGrows(h, h', h.events[d].order);
    }
  }

  lemma MaximaGrow(h: History, h': History, ds: set<Digest>)
    requires Grows(h, h') && ds <= h.events.Keys
    ensures Maxima(h', ds) == Maxima(h, ds)
  {
    assert forall y :: y in ds ==> Past(h', y) == Past(h, y);
  }

  /** What the environment grants a new operation: membership changes come after everything
      and before everything later, and secrets are fresh. */
  ghost predicate Calm(h: History, e: Event) {
    && (forall m :: m in h.events && IsMembership(h.events[m].op) ==> m in e.order)
    && (IsMembership(e.op) ==> forall d :: d in h.events ==> d in e.order)
    && (forall a :: a in h.events && BothKeyed(h.events[a].op, e.op) ==> h.events[a].seed != e.seed)
  }

  /** A new operation keeps the history valid. */
  lemma ValidGrows(h: History, d: Digest, e: Event)
    requires Valid(h) && NamesMaxima(h) && d !in h.events && Causal(h, e.order) && Known(h, e.order)
    requires CreatedFrom(e, Run(h, e.order)) && Calm(h, e)
    requires forall a :: a in h.events && SameAuthor(h.events[a].op, e.op) ==> a in e.order
    requires e.op.preds == Maxima(h, ToSet(e.order)) &&
             (e.op.Add? ==> e.op.addPreds == AddEnds(OpsOf(h, ToSet(e.order))))
    ensures Valid(Extend(h, d, e)) && NamesMaxima(Extend(h, d, e))
  {
    hide CreatedFrom, Causal, Run;
    var h' := Extend(h, d, e);
    CausalGrows(h, h', e.order);
    assert ValidEvent(h', d);
    forall x | x in h'.events
      ensures ValidEvent(h', x)
    {
      if x != d {
        EventGrows(h, h', x);
      }
    }
    StillComparable(h, d, e);
    StillOrdered(h, d, e);
    StillFresh(h, d, e);
    StillNamed(h, d, e);
  }

  lemma StillComparable(h: History, d: Digest, e: Event)
    requires Valid(h) && d !in h.events && Known(h, e.order) && Calm(h, e)
    ensures var h' := Extend(h, d, e);
            forall m, x :: m in h'.events && x in h'.events && IsMembership(h'.events[m].op) ==> Comparable(h', m, x)
  {
    var h' := Extend(h, d, e);
    forall m, x | m in h'.events && x in h'.events && IsMembership(h'.events[m].op)
      ensures Comparable(h', m, x)
    {
      if m != d && x != d {
        assert Comparable(h, m, x);
      }
    }
  }

  lemma StillOrdered(h: History, d: Digest, e: Event)
    requires Valid(h) && d !in h.events &&
             (forall a :: a in h.events && SameAuthor(h.events[a].op, e.op) ==> a in e.order)
    ensures var h' := Extend(h, d, e);
            forall a, b :: a in h'.events && b in h'.events && SameAuthor(h'.events[a].op, h'.events[b].op) ==>
              Comparable(h', a, b)
  {
    var h' := Extend(h, d, e);
    forall a, b | a in h'.events && b in h'.events && SameAuthor(h'.events[a].op, h'.events[b].op)
      ensures Comparable(h', a, b)
    {
      if a != d && b != d {
        assert Comparable(h, a, b);
      }
    }
  }

  lemma StillFresh(h: History, d: Digest, e: Event)
    requires Valid(h) && d !in h.events && Calm(h, e)
    ensures var h' := Extend(h, d, e);
            forall a, b :: a in h'.events && b in h'.events && a != b && BothKeyed(h'.events[a].op, h'.events[b].op) ==>
              h'.events[a].seed != h'.events[b].seed
  {}

  lemma StillNamed(h: History, d: Digest, e: Event)
    requires Valid(h) && NamesMaxima(h) && d !in h.events && Known(h, e.order)
    requires e.op.preds == Maxima(h, ToSet(e.order)) &&
             (e.op.Add? ==> e.op.addPreds == AddEnds(OpsOf(h, ToSet(e.order))))
    ensures NamesMaxima(Extend(h, d, e))
  {
    hide Valid, Maxima, AddEnds;
    var h' := Extend(h, d, e);
    forall x | x in h'.events
      ensures h'.events[x].op.preds == Maxima(h', Past(h', x)) &&
              (h'.events[x].op.Add? ==> h'.events[x].op.addPreds == AddEnds(OpsOf(h', Past(h', x))))
    {
      if x != d {
        PastIsKnown(h, x);
        MaximaGrow(h, h', Past(h, x));
        OpsGrow(h, h', h.events[x].order);
      } else {
        MaximaGrow(h, h', ToSet(e.order));
        OpsGrow(h, h', e.order);
      }
    }
  }

  // ----- Creating operations -----

  /** A successful local operation: recorded in the history with the order its creator's
      tree came about in, and kept by the creator. */
  lemma CreateFollows(h: History, p: Peer, d: Digest, e: Event, s: State)
    requires Valid(h) && NamesMaxima(h) && Follows(h, p) && Sensible(p.state) && d !in h.events && e.order == BaseLog(p)
    requires Causal(h, e.order) && Known(h, e.order) && CreatedFrom(e, Run(h, e.order)) && Calm(h, e)
    requires forall a :: a in h.events && SameAuthor(h.events[a].op, e.op) ==> a in e.order
    requires NamesHeads(p.state.graph, e.op)
    requires !s.pending && ApplyOp(Run(h, e.order), e.op) == Ok(s.tree) &&
             s.graph == AddOp(p.state.graph, d, e.op, None)
    ensures Valid(Extend(h, d, e)) && NamesMaxima(Extend(h, d, e))
    ensures Follows(Extend(h, d, e), Peer(s, e.order + [d])) && ToSet(e.order + [d]) == ToSet(p.log) + {d}
  {
    hide Valid, NamesMaxima, SoundGraph, Causal, CreatedFrom, Run, ApplyOp, Calm, EpochsOf, Maxima, OutcomeFor, Base,
         BaseLog, Represents, GraphOf;
    var h' := Extend(h, d, e);
    FollowsFacts(h, p);
    BaseIsRun(h, p);
    HeadsAreNamed(h, p, e);
    ValidGrows(h, d, e);
    CausalGrows(h, h', e.order);
    FollowsGrows(h, h', p);
    SameGraph(h', p, e.order);
    NotRoot(h, d);
    AppliedFollows(h', p, e.order, d, s, None);
  }

  lemma SameGraph(h: History, p: Peer, order: seq<Digest>)
    requires Follows(h, p) && ToSet(order) == ToSet(p.log)
    ensures GraphOf(h, ToSet(order), p.state.graph)
  {}

  lemma NotRoot(h: History, d: Digest)
    requires Valid(h) && d !in h.events
    ensures d != h.root
  {}

  lemma HeadsAreNamed(h: History, p: Peer, e: Event)
    requires Valid(h) && NamesMaxima(h) && Follows(h, p) && NamesHeads(p.state.graph, e.op) &&
             ToSet(e.order) == ToSet(p.log)
    ensures e.op.preds == Maxima(h, ToSet(e.order)) &&
            (e.op.Add? ==> e.op.addPreds == AddEnds(OpsOf(h, ToSet(e.order))))
  {
    hide Valid, NamesMaxima, Represents, Maxima, Causal, Run, AddEnds;
    FollowsFacts(h, p);
  }

  // ----- The state machine -----

  datatype Action =
    | AddMember(r: MemberId, id: MemberId, seed: nat, d: Digest)
    | RemoveMember(r: MemberId, id: MemberId, d: Digest)
    | UpdateOwn(r: MemberId, seed: nat, draw: nat -> Secret, d: Digest)
    | Deliver(r: MemberId, d: Digest)
    | Join(r: MemberId, id: MemberId, sks: ShareKeyMap)
    | MakePrekey(r: MemberId, seed: nat)
    | ReadRoot(r: MemberId)

  /** The replica created by the first member, with the initial add. */
  ghost predicate Init(w: World, id: MemberId, seed: nat, d: Digest) {
    var pk := ShareKey(Fresh(seed));
    var op := InitAdd(id, pk);
    && w.history == History(d, map[d := Event(op, [], seed)])
    && var s := State(AddOp(EmptyGraph(), d, op, None), NewTree(id, pk), false, id, map[pk := Fresh(seed)]);
       w.peers == map[id := Peer(s, [d])]
  }

  /** A new operation enters the history and its creator's replica. */
  ghost predicate Records(w: World, r: MemberId, d: Digest, e: Event, s: State, w': World)
    requires r in w.peers && Sensible(w.peers[r].state)
  {
    && Calm(w.history, e) && e.order == BaseLog(w.peers[r])
    && w' == World(Extend(w.history, d, e), w.peers[r := Peer(s, e.order + [d])])
  }

  /** An action that failed or had nothing to do; a replay may have taken place. */
  ghost predicate Idles(w: World, r: MemberId, s: State, w': World)
    requires r in w.peers && Sensible(w.peers[r].state)
  {
    var p := w.peers[r];
    w' == w.(peers := w.peers[r := Peer(s, if s.tree == p.state.tree then p.log else BaseLog(p))])
  }

  /** Secret keys for every leaf key a member was ever given or made. */
  ghost predicate HoldsKeys(h: History, id: MemberId, sks: ShareKeyMap) {
    && Sound(sks)
    && forall d :: d in h.events && !h.events[d].op.Remove? && Author(h.events[d].op) == id ==>
         ShareKey(Fresh(h.events[d].seed)) in sks
  }

  ghost predicate Next(w: World, a: Action, w': World) {
    && a.r in w.peers && Sensible(w.peers[a.r].state)
    && var h, p := w.history, w.peers[a.r];
       match a
       case AddMember(r, id, seed, d) =>
         && d !in h.events && (id in w.peers ==> ShareKey(Fresh(seed)) in w.peers[id].state.sks)
         && exists s, res ::
              && AddsMember(p.state, id, ShareKey(Fresh(seed)), d, s, res)
              && if res.Ok? && res.value.Some? then Records(w, r, d, Event(res.value.value, BaseLog(p), seed), s, w')
                 else Idles(w, r, s, w')
       case RemoveMember(r, id, d) =>
         && d !in h.events
         && exists s, res ::
              && RemovesMember(p.state, id, d, s, res)
              && if res.Ok? && res.value.Some? then Records(w, r, d, Event(res.value.value, BaseLog(p), 0), s, w')
                 else Idles(w, r, s, w')
       case UpdateOwn(r, seed, draw, d) =>
         && d !in h.events
         && exists s, res ::
              && UpdatesOwn(p.state, Fresh(seed), draw, d, s, res)
              && if res.Ok? then Records(w, r, d, Event(res.value.1, BaseLog(p), seed), s, w')
                 else Idles(w, r, s, w')
       case Deliver(r, d) =>
         && d in h.events
         && exists s, res ::
              && Merges(p.state, d, h.events[d].op, s, res)
              && w' == w.(peers := w.peers[r := Peer(s, MergedLog(p, d, h.events[d].op))])
       case Join(r, id, sks) =>
         && id !in w.peers && HoldsKeys(h, id, sks)
         && w' == w.(peers := w.peers[id := Peer(p.state.(owner := id, sks := sks), p.log)])
       case MakePrekey(r, seed) =>
         var sks := p.state.sks[ShareKey(Fresh(seed)) := Fresh(seed)];
         w' == w.(peers := w.peers[r := p.(state := p.state.(sks := sks))])
       case ReadRoot(r) =>
         && HasKey(p.state)
         && exists s, res ::
              ReadsKey(p.state, s, res) && w' == w.(peers := w.peers[r := p.(state := s)])
  }

  ghost predicate PeerFine(w: World, r: MemberId)
    requires r in w.peers
  {
    && w.peers[r].state.owner == r && Follows(w.history, w.peers[r])
    && HoldsKeys(w.history, r, w.peers[r].state.sks)
  }

  /** Every member has its own updates in its own replica. */
  ghost predicate OwnUpdates(w: World) {
    forall d :: d in w.history.events && w.history.events[d].op.Update? ==>
      var id := w.history.events[d].op.memberId; id in w.peers && d in w.peers[id].log
  }

  ghost predicate Inv(w: World) {
    && Valid(w.history) && NamesMaxima(w.history)
    && (forall r :: r in w.peers ==> PeerFine(w, r))
    && OwnUpdates(w)
  }

  // ----- Reading the root secret -----

  /** A member of the tree holds the secret of its current leaf key. */
  lemma MemberHoldsLeafKey(h: History, ds: set<Digest>, t: Tree, id: MemberId, sks: ShareKeyMap)
    requires Valid(h) && Closed(h, ds) && Represents(h, ds, t) && id in t.ids && HoldsKeys(h, id, sks)
    ensures HoldsLeafKey(t, id, sks)
  {
    hide Valid, VersionsMatch, Bounded, EncrypterMatch, Shaped, IsLive;
    var i := t.ids[id];
    assert LeafMatch(h, ds, t, i);
    var d :| d in Live(h, ds, Leaf(i)) && !h.events[d].op.Remove? && t.leaves[i] == LeafOf(h.events[d]);
    LiveIsKnown(h, ds, Leaf(i), d);
  }

  lemma LiveIsKnown(h: History, ds: set<Digest>, v: Node, d: Digest)
    requires Valid(h) && Closed(h, ds) && d in Live(h, ds, v)
    ensures d in ds && d in h.events
  {}

  /** Decrypting a tree with a root key gives the secret of the last update, and leaves the
      key map sound. */
  lemma RootIsRead(h: History, ds: set<Digest>, t: Tree, id: MemberId, sks: ShareKeyMap) returns (a: Digest)
    requires Valid(h) && Closed(h, ds) && Represents(h, ds, t) && HasRootKey(t) && HoldsKeys(h, id, sks)
    ensures a in ds && a in h.events && h.events[a].op.Update? && ds == UpTo(h, a) && TreeReads(t, id)
    ensures id in t.ids ==>
              var out := DecryptTreeSecret(t, id, sks);
              out.0 == Ok(RootSecretOf(h, a)) && Sound(out.1) && sks.Keys <= out.1.Keys
  {
    hide Valid, Represents, WF, Chained, Readable, DecryptTreeSecret, HoldsKeys;
    a := RootChain(h, ds, t);
    RepresentsBounds(h, ds, t);
    ReadsWhenWF(t, id);
    if id in t.ids {
      MemberHoldsLeafKey(h, ds, t, id, sks);
      AlwaysReadable(h, ds, t, t.ids[id]);
      WFBounds(t, id);
      DecryptsToRoot(t, id, sks, Fresh(h.events[a].seed));
    }
  }

  lemma ReadsWhenWF(t: Tree, id: MemberId)
    requires WF(t)
    ensures TreeReads(t, id)
  {}

  // ----- Every step keeps the invariant -----

  lemma InitInv(w: World, id: MemberId, seed: nat, d: Digest)
    requires Init(w, id, seed, d)
    ensures Inv(w)
  {
    hide SoundGraph, NewTree;
    var h := w.history;
    var pk := ShareKey(Fresh(seed));
    FirstReflects(id, pk, d);
    FirstValid(h, id, seed, d);
    RootFacts(h);
    assert Causal(h, [d]) && ToSet([d]) == {d};
    assert OpsOf(h, {d}) == map[d := InitAdd(id, pk)];
    assert PeerFine(w, id);
  }

  lemma FirstValid(h: History, id: MemberId, seed: nat, d: Digest)
    requires h == History(d, map[d := Event(InitAdd(id, ShareKey(Fresh(seed))), [], seed)])
    ensures Valid(h) && NamesMaxima(h)
  {
    assert ValidEvent(h, d);
    assert ToSet<Digest>([]) == {};
    assert Maxima(h, {}) == {} && OpsOf(h, {}) == map[];
  }

  /** After a replay without a new operation. */
  lemma IdleFollows(h: History, p: Peer, s: State)
    requires Valid(h) && NamesMaxima(h) && Follows(h, p) && Sensible(p.state)
    requires s.graph == p.state.graph && !s.pending && (s.tree == p.state.tree || Base(p.state) == Ok(s.tree))
    ensures Follows(h, Peer(s, if s.tree == p.state.tree then p.log else BaseLog(p)))
    ensures ToSet(if s.tree == p.state.tree then p.log else BaseLog(p)) == ToSet(p.log)
  {
    hide Valid, NamesMaxima, Base, BaseLog, SoundGraph, Causal, Run;
    BaseIsRun(h, p);
  }

  /** Replacing one replica by one that follows the same history and has the same owner. */
  lemma PeerReplaced(w: World, r: MemberId, p: Peer)
    requires Inv(w) && r in w.peers && Follows(w.history, p) && p.state.owner == r
    requires HoldsKeys(w.history, r, p.state.sks) && ToSet(w.peers[r].log) <= ToSet(p.log)
    ensures Inv(w.(peers := w.peers[r := p]))
  {
    hide Valid, NamesMaxima, Follows, HoldsKeys;
    var w' := w.(peers := w.peers[r := p]);
    forall x | x in w'.peers
      ensures PeerFine(w', x)
    {
      if x != r {
        assert PeerFine(w, x);
      }
    }
    forall d | d in w.history.events && w.history.events[d].op.Update?
      ensures var id := w.history.events[d].op.memberId; id in w'.peers && d in w'.peers[id].log
    {
      var id := w.history.events[d].op.memberId;
      if id == r {
        assert d in ToSet(w.peers[r].log);
      }
    }
  }

  lemma PeerIsFine(w: World, r: MemberId)
    requires Inv(w) && r in w.peers
    ensures var p := w.peers[r]; p.state.owner == r && Follows(w.history, p) && HoldsKeys(w.history, r, p.state.sks)
    ensures Valid(w.history) && NamesMaxima(w.history)
  {
    assert PeerFine(w, r);
  }

  lemma DeliverInv(w: World, r: MemberId, d: Digest, w': World)
    requires Inv(w) && Next(w, Deliver(r, d), w')
    ensures Inv(w')
  {
    hide Inv, Valid, NamesMaxima, HoldsKeys, Follows, AddsMember, RemovesMember, UpdatesOwn, Merges, ReadsKey, Records,
         Idles, MergedLog;
    var h, p := w.history, w.peers[r];
    PeerIsFine(w, r);
    var s, res :| Merges(p.state, d, h.events[d].op, s, res)
                  && w' == w.(peers := w.peers[r := Peer(s, MergedLog(p, d, h.events[d].op))]);
    MergeFollows(h, p, d, s, res);
    MergeKeeps(p.state, d, h.events[d].op, s, res);
    LogGrows(h, p, d);
    PeerReplaced(w, r, Peer(s, MergedLog(p, d, h.events[d].op)));
  }

  lemma MergeKeeps(s: State, d: Digest, op: Op, s': State, r: Result<bool>)
    requires Sensible(s) && Merges(s, d, op, s', r)
    ensures s'.owner == s.owner && s'.sks == s.sks
  {}

  lemma LogGrows(h: History, p: Peer, d: Digest)
    requires Valid(h) && NamesMaxima(h) && Follows(h, p) && d in h.events && Sensible(p.state)
    ensures ToSet(p.log) <= ToSet(MergedLog(p, d, h.events[d].op))
  {
    hide Valid, NamesMaxima, Follows, BaseLog, Base, Causal;
    BaseIsRun(h, p);
    ToSetSnoc(p.log, d);
    ToSetSnoc(BaseLog(p), d);
  }

  lemma JoinInv(w: World, r: MemberId, id: MemberId, sks: ShareKeyMap, w': World)
    requires Inv(w) && Next(w, Join(r, id, sks), w')
    ensures Inv(w')
  {
    hide Valid, NamesMaxima, HoldsKeys, Causal, Run, GraphOf, SoundGraph, AddsMember, RemovesMember, UpdatesOwn,
         Merges, ReadsKey, Records, Idles, MergedLog;
    PeerIsFine(w, r);
    forall x | x in w'.peers
      ensures PeerFine(w', x)
    {
      if x != id {
        assert PeerFine(w, x);
      }
    }
  }

  lemma PrekeyInv(w: World, r: MemberId, seed: nat, w': World)
    requires Inv(w) && Next(w, MakePrekey(r, seed), w')
    ensures Inv(w')
  {
    hide Inv, Valid, NamesMaxima, Causal, Run, GraphOf, AddsMember, RemovesMember, UpdatesOwn, Merges, ReadsKey,
         Records, Idles, MergedLog;
    PeerIsFine(w, r);
    var p := w.peers[r];
    PeerReplaced(w, r, p.(state := p.state.(sks := p.state.sks[ShareKey(Fresh(seed)) := Fresh(seed)])));
  }

  lemma MoreKeys(h: History, id: MemberId, sks: ShareKeyMap, more: ShareKeyMap)
    requires HoldsKeys(h, id, sks) && Sound(more) && sks.Keys <= more.Keys
    ensures HoldsKeys(h, id, more)
  {}

  lemma ReadInv(w: World, r: MemberId, w': World)
    requires Inv(w) && Next(w, ReadRoot(r), w')
    ensures Inv(w')
  {
    hide Inv, Valid, NamesMaxima, HoldsKeys, DecryptTreeSecret, Represents, Causal, Run, AddsMember, RemovesMember,
         UpdatesOwn, Merges, Records, Idles, MergedLog;
    var h, p := w.history, w.peers[r];
    PeerIsFine(w, r);
    FollowsFacts(h, p);
    var s, res :| ReadsKey(p.state, s, res) && w' == w.(peers := w.peers[r := p.(state := s)]);
    var a := RootIsRead(h, ToSet(p.log), p.state.tree, r, p.state.sks);
    if r in p.state.tree.ids {
      MoreKeys(h, r, p.state.sks, s.sks);
    } else {
      NotAMember(p.state.tree, r, p.state.sks);
    }
    PeerReplaced(w, r, p.(state := s));
  }

  lemma NotAMember(t: Tree, id: MemberId, sks: ShareKeyMap)
    requires id !in t.ids && TreeReads(t, id)
    ensures DecryptTreeSecret(t, id, sks) == (Err(IdentifierNotFound), sks)
  {}

  // ----- Steps that create operations -----

  /** Recording a new operation keeps the invariant. */
  lemma RecordInv(w: World, r: MemberId, d: Digest, e: Event, s: State, w': World)
    requires Inv(w) && r in w.peers && Sensible(w.peers[r].state) && d !in w.history.events &&
             Records(w, r, d, e, s, w')
    requires Causal(w.history, e.order) && Known(w.history, e.order) && CreatedFrom(e, Run(w.history, e.order))
    requires NamesHeads(w.peers[r].state.graph, e.op) && (e.op.Update? ==> e.op.memberId == r)
    requires !s.pending && ApplyOp(Run(w.history, e.order), e.op) == Ok(s.tree) &&
             s.graph == AddOp(w.peers[r].state.graph, d, e.op, None)
    requires s.owner == r && HoldsKeys(w.history, r, s.sks)
    requires e.op.Update? ==> ShareKey(Fresh(e.seed)) in s.sks
    requires e.op.Add? && e.op.addedId in w.peers ==>
               ShareKey(Fresh(e.seed)) in (if e.op.addedId == r then s.sks else w.peers[e.op.addedId].state.sks)
    ensures Inv(w')
  {
    hide Valid, NamesMaxima, Causal, Run, CreatedFrom, ApplyOp, SoundGraph, Calm, Follows, BaseLog, NamesHeads;
    var h, h', p := w.history, Extend(w.history, d, e), w.peers[r];
    PeerIsFine(w, r);
    OwnUpdatesInBase(w, r, e);
    CreateFollows(h, p, d, e, s);
    forall x | x in w'.peers
      ensures PeerFine(w', x)
    {
      if x != r {
        assert PeerFine(w, x);
        FollowsGrows(h, h', p);
        FollowsGrows(h, h', w.peers[x]);
      }
    }
    RecordedOwn(w, r, d, e, s, w');
  }

  lemma OwnUpdatesInBase(w: World, r: MemberId, e: Event)
    requires Inv(w) && r in w.peers && Sensible(w.peers[r].state) && (e.op.Update? ==> e.op.memberId == r)
    requires e.order == BaseLog(w.peers[r])
    ensures forall a :: a in w.history.events && SameAuthor(w.history.events[a].op, e.op) ==> a in e.order
  {
    hide Valid, NamesMaxima, Follows, BaseLog, HoldsKeys, Base, Causal;
    PeerIsFine(w, r);
    BaseIsRun(w.history, w.peers[r]);
    forall a | a in w.history.events && SameAuthor(w.history.events[a].op, e.op)
      ensures a in e.order
    {
      assert a in ToSet(w.peers[r].log);
      assert a in ToSet(e.order);
    }
  }

  lemma RecordedOwn(w: World, r: MemberId, d: Digest, e: Event, s: State, w': World)
    requires Inv(w) && r in w.peers && Sensible(w.peers[r].state) && Records(w, r, d, e, s, w')
    requires ToSet(e.order + [d]) == ToSet(w.peers[r].log) + {d} && (e.op.Update? ==> e.op.memberId == r)
    ensures OwnUpdates(w')
  {
    hide Valid, NamesMaxima, Calm, BaseLog, PeerFine;
    forall x | x in w'.history.events && w'.history.events[x].op.Update?
      ensures var id := w'.history.events[x].op.memberId; id in w'.peers && x in w'.peers[id].log
    {
      var id := w'.history.events[x].op.memberId;
      if id == r {
        assert x == d || x in ToSet(w.peers[r].log);
        assert x in ToSet(e.order + [d]);
      }
    }
  }

  /** Replaying does not change who is in the tree. */
  lemma BaseHasSameIds(h: History, p: Peer)
    requires Valid(h) && NamesMaxima(h) && Follows(h, p)
    ensures Sensible(p.state) && Base(p.state).Ok? && Base(p.state).value.ids == p.state.tree.ids
    ensures Base(p.state).value.nextLeaf == p.state.tree.nextLeaf
  {
    hide Valid, NamesMaxima, Base, BaseLog, SoundGraph, Causal, Run, Versions;
    BaseIsRun(h, p);
    OrderDoesNotMatter(h, p.log, BaseLog(p));
  }

  lemma AddInv(w: World, r: MemberId, id: MemberId, seed: nat, d: Digest, w': World)
    requires Inv(w) && Next(w, AddMember(r, id, seed, d), w')
    ensures Inv(w')
  {
    hide Inv, Valid, NamesMaxima, HoldsKeys, Follows, Base, BaseLog, RemovesMember, UpdatesOwn, Merges, ReadsKey,
         Records, Idles, MergedLog, ApplyOp, Causal, Run, SoundGraph;
    var h, p := w.history, w.peers[r];
    PeerIsFine(w, r);
    BaseIsRun(h, p);
    BaseHasSameIds(h, p);
    var s, res :| AddsMember(p.state, id, ShareKey(Fresh(seed)), d, s, res)
                  && if res.Ok? &&
                    res.value.Some? then Records(w, r, d, Event(res.value.value, BaseLog(p), seed), s, w')
                     else Idles(w, r, s, w');
    if res.Ok? && res.value.Some? {
      RecordInv(w, r, d, Event(res.value.value, BaseLog(p), seed), s, w');
    } else {
      StandsStill(w, r, s, w');
    }
  }

  lemma StandsStill(w: World, r: MemberId, s: State, w': World)
    requires Inv(w) && r in w.peers && Sensible(w.peers[r].state) && s.graph == w.peers[r].state.graph && !s.pending
    requires s.tree == w.peers[r].state.tree || Base(w.peers[r].state) == Ok(s.tree)
    requires s.owner == r && HoldsKeys(w.history, r, s.sks) && Idles(w, r, s, w')
    ensures Inv(w')
  {
    hide Inv, Valid, NamesMaxima, HoldsKeys, Follows, Base, BaseLog;
    var p := w.peers[r];
    PeerIsFine(w, r);
    IdleFollows(w.history, p, s);
    PeerReplaced(w, r, Peer(s, if s.tree == p.state.tree then p.log else BaseLog(p)));
  }

  lemma RemoveInv(w: World, r: MemberId, id: MemberId, d: Digest, w': World)
    requires Inv(w) && Next(w, RemoveMember(r, id, d), w')
    ensures Inv(w')
  {
    hide Inv, Valid, NamesMaxima, HoldsKeys, Follows, Base, BaseLog, AddsMember, UpdatesOwn, Merges, ReadsKey, Records,
         Idles, MergedLog, ApplyOp, Causal, Run, SoundGraph;
    var h, p := w.history, w.peers[r];
    PeerIsFine(w, r);
    BaseIsRun(h, p);
    var s, res :| RemovesMember(p.state, id, d, s, res)
                  && if res.Ok? && res.value.Some? then Records(w, r, d, Event(res.value.value, BaseLog(p), 0), s, w')
                     else Idles(w, r, s, w');
    NeverPending(h, p);
    if res.Ok? && res.value.Some? {
      RecordInv(w, r, d, Event(res.value.value, BaseLog(p), 0), s, w');
    } else {
      StandsStill(w, r, s, w');
    }
  }

  lemma NeverPending(h: History, p: Peer)
    requires Follows(h, p)
    ensures !p.state.pending
  {}

  lemma UpdateInv(w: World, r: MemberId, seed: nat, draw: nat -> Secret, d: Digest, w': World)
    requires Inv(w) && Next(w, UpdateOwn(r, seed, draw, d), w')
    ensures Inv(w')
  {
    hide Inv, Valid, NamesMaxima, HoldsKeys, Follows, Base, BaseLog, AddsMember, RemovesMember, Merges, ReadsKey,
         Records, Idles, MergedLog, ApplyOp, Causal, Run, SoundGraph, EncryptedTree, EncryptedChange;
    var h, p := w.history, w.peers[r];
    PeerIsFine(w, r);
    BaseIsRun(h, p);
    var s, res :| UpdatesOwn(p.state, Fresh(seed), draw, d, s, res)
                  && if res.Ok? then Records(w, r, d, Event(res.value.1, BaseLog(p), seed), s, w')
                     else Idles(w, r, s, w');
    OwnKeyKept(h, r, p.state.sks, seed);
    if res.Ok? {
      RecordInv(w, r, d, Event(res.value.1, BaseLog(p), seed), s, w');
    } else {
      StandsStill(w, r, s, w');
    }
  }

  lemma OwnKeyKept(h: History, id: MemberId, sks: ShareKeyMap, seed: nat)
    requires HoldsKeys(h, id, sks)
    ensures HoldsKeys(h, id, sks[ShareKey(Fresh(seed)) := Fresh(seed)])
  {}

  lemma NextInv(w: World, a: Action, w': World)
    requires Inv(w) && Next(w, a, w')
    ensures Inv(w')
  {
    hide Inv, Next;
    match a
    case AddMember(r, id, seed, d) => AddInv(w, r, id, seed, d, w');
    case RemoveMember(r, id, d) => RemoveInv(w, r, id, d, w');
    case UpdateOwn(r, seed, draw, d) => UpdateInv(w, r, seed, draw, d, w');
    case Deliver(r, d) => DeliverInv(w, r, d, w');
    case Join(r, id, sks) => JoinInv(w, r, id, sks, w');
    case MakePrekey(r, seed) => PrekeyInv(w, r, seed, w');
    case ReadRoot(r) => ReadInv(w, r, w');
  }

  // ----- What holds in every reachable world -----

  /** A run: worlds and the actions between them. */
  ghost predicate IsRun(ws: seq<World>, acts: seq<Action>, id: MemberId, seed: nat, d: Digest) {
    && |ws| == |acts| + 1 && Init(ws[0], id, seed, d)
    && forall k :: 0 <= k < |acts| ==> Next(ws[k], acts[k], ws[k + 1])
  }

  lemma {:induction false} RunInv(ws: seq<World>, acts: seq<Action>, id: MemberId, seed: nat, d: Digest, k: nat)
    requires IsRun(ws, acts, id, seed, d) && k < |ws|
    ensures Inv(ws[k])
  {
    hide Inv, Next, Init;
    if k == 0 {
      InitInv(ws[0], id, seed, d);
    } else {
      RunInv(ws, acts, id, seed, d, k - 1);
      NextInv(ws[k - 1], acts[k - 1], ws[k]);
    }
  }
}
