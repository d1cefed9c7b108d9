/** Secrecy in every run of the group: what replicas come to hold, and what can be made of it by
    whoever gets hold of it, now or later. */
module RunSecrecy {
  import opened Seqs
  import opened Results
  import opened Nodes
  import opened Crypto
  import opened NodeKeys
  import opened KeyTree
  import opened Agreement
  import opened WellFormed
  import opened Operations
  import opened History
  import opened Convergence
  import opened GroupAgreement
  import opened Graph
  import opened ReplicaSteps
  import opened HistoryGraph
  import opened Peers
  import opened Network
  import opened Secrecy
  import opened GroupSecrecy

  /** Members generate their own secrets: a member is added under a key of its own, updates with a
      fresh secret of its own and joins with keys of its own; nobody keeps throwaways. */
  ghost predicate Private(own: Owners, a: Action) {
    match a
    case AddMember(_, id, seed, _) => own(seed) == Some(id)
    case UpdateOwn(r, seed, draw, _) => own(seed) == Some(r) && Throwaways(own, draw)
    case Join(_, id, sks) => OwnKeys(own, id, sks)
    case MakePrekey(r, seed) => own(seed) == Some(r)
    case _ => true
  }

  ghost predicate OwnKeys(own: Owners, id: MemberId, sks: ShareKeyMap) {
    forall pk :: pk in sks ==> sks[pk].Fresh? && own(sks[pk].seed) == Some(id)
  }

  ghost predicate PrivateRun(ws: seq<World>, acts: seq<Action>, id: MemberId, seed: nat, d: Digest, own: Owners) {
    && IsRun(ws, acts, id, seed, d) && own(seed) == Some(id)
    && forall k :: 0 <= k < |acts| ==> Private(own, acts[k])
  }

  ghost predicate Files(sks: ShareKeyMap, s: Secret) {
    exists pk :: pk in sks && sks[pk] == s
  }

  ghost function Filed(sks: ShareKeyMap): iset<Secret> {
    iset s | Files(sks, s)
  }

  /** The member's key map holds fresh secrets of its own and what can be known from those. */
  ghost predicate KeysAllowed(h: History, own: Owners, r: MemberId, sks: ShareKeyMap)
    requires Valid(h)
  {
    && (forall x :: x in FreshSeeds(Filed(sks)) ==> own(x) == Some(r))
    && Filed(sks) <= Knowledge(h, FreshSeeds(Filed(sks)))
  }

  ghost predicate Quiet(own: Owners, w: World) {
    && Valid(w.history) && AllGuarded(w.history, own)
    && forall r :: r in w.peers ==> KeysAllowed(w.history, own, r, w.peers[r].state.sks)
  }

  // ----- Knowledge only grows -----

  lemma KnowMore(h: History, h': History, leaked: iset<nat>, leaked': iset<nat>, s: Secret)
    requires Valid(h) && Valid(h') && Grows(h, h') && leaked <= leaked' && MayKnow(h, leaked, s)
    ensures MayKnow(h', leaked', s)
  {
    hide Valid, Run, MeetLevel, LeafSecret;
    if Seed(s) !in leaked {
      var b, q :| LeaksAt(h, leaked, b, q, s);
      PastIsKnown(h, b);
      RunGrows(h, h', h.events[b].order);
      assert LeaksAt(h', leaked', b, q, s);
    }
  }

  lemma KnowledgeGrows(h: History, h': History, leaked: iset<nat>, leaked': iset<nat>)
    requires Valid(h) && Valid(h') && Grows(h, h') && leaked <= leaked'
    ensures Knowledge(h, leaked) <= Knowledge(h', leaked')
  {
    hide Valid, MayKnow, Grows;
    forall s | s in Knowledge(h, leaked)
      ensures s in Knowledge(h', leaked')
    {
      KnowMore(h, h', leaked, leaked', s);
    }
  }

  lemma KeysGrow(h: History, h': History, own: Owners, r: MemberId, sks: ShareKeyMap)
    requires Valid(h) && Valid(h') && Grows(h, h') && KeysAllowed(h, own, r, sks)
    ensures KeysAllowed(h', own, r, sks)
  {
    hide Valid, Grows, Knowledge, Filed;
    KnowledgeGrows(h, h', FreshSeeds(Filed(sks)), FreshSeeds(Filed(sks)));
  }

  lemma GuardedGrows(h: History, own: Owners, d: Digest, e: Event)
    requires AllGuarded(h, own) && d !in h.events && Known(h, e.order) && Guarded(own, e, Run(h, e.order))
    ensures AllGuarded(Extend(h, d, e), own)
  {
    hide Run, Guarded;
    var h' := Extend(h, d, e);
    forall x | x in h'.events
      ensures Known(h', h'.events[x].order) && Guarded(own, h'.events[x], Run(h', h'.events[x].order))
    {
      RunGrows(h, h', h'.events[x].order);
    }
  }

  /** A key map with more keys, each an own fresh secret or known from the others. */
  lemma MoreAllowed(h: History, own: Owners, r: MemberId, sks: ShareKeyMap, more: ShareKeyMap)
    requires Valid(h) && KeysAllowed(h, own, r, sks) && Sound(sks) && Sound(more) && sks.Keys <= more.Keys
    requires forall pk :: pk in more && pk !in sks ==>
               if pk.secret.Fresh? then own(pk.secret.seed) == Some(r)
               else MayKnow(h, FreshSeeds(Filed(sks)), pk.secret)
    ensures KeysAllowed(h, own, r, more)
  {
    hide Valid, MayKnow;
    var before, after := FreshSeeds(Filed(sks)), FreshSeeds(Filed(more));
    forall x | x in before
      ensures x in after
    {
      var pk :| pk in sks && sks[pk] == Fresh(x);
      assert pk in more && more[pk] == Fresh(x);
    }
    forall x | x in after
      ensures own(x) == Some(r)
    {
      var pk :| pk in more && more[pk] == Fresh(x);
      if pk in sks {
        assert Files(sks, Fresh(x));
        assert x in before;
      }
    }
    forall s | s in Filed(more)
      ensures s in Knowledge(h, after)
    {
      var pk :| pk in more && more[pk] == s;
      if s.Fresh? {
        assert s.seed in after;
        SeedIsKnown(h, after, s);
      } else {
        if pk in sks {
          assert Files(sks, s);
          assert s in Filed(sks);
        }
        KnowMore(h, h, before, after, s);
      }
    }
  }

  // ----- Steps -----

  lemma PeerIsQuiet(own: Owners, w: World, r: MemberId)
    requires Quiet(own, w) && r in w.peers
    ensures Valid(w.history) && AllGuarded(w.history, own) && KeysAllowed(w.history, own, r, w.peers[r].state.sks)
  {}

  /** The history stays, and one replica has a key map it is allowed. */
  lemma StaysQuiet(own: Owners, w: World, r: MemberId, p: Peer, w': World)
    requires Quiet(own, w) && KeysAllowed(w.history, own, r, p.state.sks) && w' == w.(peers := w.peers[r := p])
    ensures Quiet(own, w')
  {
    hide Valid, AllGuarded, KeysAllowed;
  }

  lemma RecordQuiet(own: Owners, w: World, r: MemberId, d: Digest, e: Event, s: State, w': World)
    requires Quiet(own, w) && r in w.peers && Sensible(w.peers[r].state) && d !in w.history.events &&
             Records(w, r, d, e, s, w')
    requires Known(w.history, e.order) && Guarded(own, e, Run(w.history, e.order)) && Valid(w'.history)
    requires KeysAllowed(w.history, own, r, s.sks)
    ensures Quiet(own, w')
  {
    hide Valid, AllGuarded, KeysAllowed, Guarded, Run, BaseLog, Calm, Sensible;
    var h, h' := w.history, Extend(w.history, d, e);
    GuardedGrows(h, own, d, e);
    forall x | x in w'.peers
      ensures KeysAllowed(h', own, x, w'.peers[x].state.sks)
    {
      KeysGrow(h, h', own, x, w'.peers[x].state.sks);
    }
  }

  lemma AddQuiet(own: Owners, w: World, r: MemberId, id: MemberId, seed: nat, d: Digest, w': World)
    requires Inv(w) && Inv(w') && Quiet(own, w) && Next(w, AddMember(r, id, seed, d), w') && own(seed) == Some(id)
    ensures Quiet(own, w')
  {
    hide Inv, Quiet, AllGuarded, KeysAllowed, Valid, NamesMaxima, Follows, HoldsKeys, Base, BaseLog, RemovesMember,
         UpdatesOwn, Merges, ReadsKey, Records, MergedLog, ApplyOp, Causal, Run;
    var h, p := w.history, w.peers[r];
    PeerIsFine(w, r);
    BaseIsRun(h, p);
    PeerIsQuiet(own, w, r);
    InvIsValid(w');
    var s, res :| AddsMember(p.state, id, ShareKey(Fresh(seed)), d, s, res)
                  && if res.Ok? && res.value.Some?
                     then Records(w, r, d, Event(res.value.value, BaseLog(p), seed), s, w')
                     else Idles(w, r, s, w');
    if res.Ok? && res.value.Some? {
      RecordQuiet(own, w, r, d, Event(res.value.value, BaseLog(p), seed), s, w');
    } else {
      StaysQuiet(own, w, r, w'.peers[r], w');
    }
  }

  lemma InvIsValid(w: World)
    requires Inv(w)
    ensures Valid(w.history)
  {}

  lemma RemoveQuiet(own: Owners, w: World, r: MemberId, id: MemberId, d: Digest, w': World)
    requires Inv(w) && Inv(w') && Quiet(own, w) && Next(w, RemoveMember(r, id, d), w')
    ensures Quiet(own, w')
  {
    hide Inv, Quiet, AllGuarded, KeysAllowed, Valid, NamesMaxima, Follows, HoldsKeys, Base, BaseLog, AddsMember,
         UpdatesOwn, Merges, ReadsKey, Records, MergedLog, ApplyOp, Causal, Run;
    var h, p := w.history, w.peers[r];
    PeerIsFine(w, r);
    BaseIsRun(h, p);
    PeerIsQuiet(own, w, r);
    InvIsValid(w');
    var s, res :| RemovesMember(p.state, id, d, s, res)
                  && if res.Ok? && res.value.Some? then Records(w, r, d, Event(res.value.value, BaseLog(p), 0), s, w')
                     else Idles(w, r, s, w');
    if res.Ok? && res.value.Some? {
      RecordQuiet(own, w, r, d, Event(res.value.value, BaseLog(p), 0), s, w');
    } else {
      StaysQuiet(own, w, r, w'.peers[r], w');
    }
  }

  lemma UpdateQuiet(own: Owners, w: World, r: MemberId, seed: nat, draw: nat -> Secret, d: Digest, w': World)
    requires Inv(w) && Inv(w') && Quiet(own, w) && Next(w, UpdateOwn(r, seed, draw, d), w')
    requires own(seed) == Some(r) && Throwaways(own, draw)
    ensures Quiet(own, w')
  {
    hide Inv, Quiet, AllGuarded, KeysAllowed, Valid, NamesMaxima, Follows, HoldsKeys, Base, BaseLog, AddsMember,
         RemovesMember, Merges, ReadsKey, Records, MergedLog, ApplyOp, Causal, Run, EncryptedTree, EncryptedChange,
         Throwaways, Guarded;
    var h, p := w.history, w.peers[r];
    PeerIsFine(w, r);
    BaseIsRun(h, p);
    PeerIsQuiet(own, w, r);
    InvIsValid(w');
    var s, res :| UpdatesOwn(p.state, Fresh(seed), draw, d, s, res)
                  && if res.Ok? then Records(w, r, d, Event(res.value.1, BaseLog(p), seed), s, w')
                     else Idles(w, r, s, w');
    OwnKeyAllowed(h, own, r, p.state.sks, seed);
    if res.Ok? {
      UpdateIsGuarded(own, Event(res.value.1, BaseLog(p), seed), Run(h, BaseLog(p)), draw);
      RecordQuiet(own, w, r, d, Event(res.value.1, BaseLog(p), seed), s, w');
    } else {
      StaysQuiet(own, w, r, w'.peers[r], w');
    }
  }

  lemma UpdateIsGuarded(own: Owners, e: Event, t: Tree, draw: nat -> Secret)
    requires Linked(t) && e.op.Update? && e.op.memberId in t.ids && own(e.seed) == Some(e.op.memberId)
    requires Throwaways(own, draw) && e.op.change == EncryptedChange(t, e.op.memberId, Fresh(e.seed), draw)
    ensures Guarded(own, e, t)
  {}

  lemma OwnKeyAllowed(h: History, own: Owners, r: MemberId, sks: ShareKeyMap, seed: nat)
    requires Valid(h) && KeysAllowed(h, own, r, sks) && HoldsKeys(h, r, sks) && own(seed) == Some(r)
    ensures KeysAllowed(h, own, r, sks[ShareKey(Fresh(seed)) := Fresh(seed)])
  {
    hide Valid, MayKnow, KeysAllowed;
    MoreAllowed(h, own, r, sks, sks[ShareKey(Fresh(seed)) := Fresh(seed)]);
  }

  lemma JoinQuiet(own: Owners, w: World, r: MemberId, id: MemberId, sks: ShareKeyMap, w': World)
    requires Quiet(own, w) && Next(w, Join(r, id, sks), w') && OwnKeys(own, id, sks)
    ensures Quiet(own, w')
  {
    hide Quiet, Valid, KeysAllowed, AddsMember, RemovesMember, UpdatesOwn, Merges, ReadsKey, Records, Idles, MergedLog;
    PeerIsQuiet(own, w, r);
    OwnKeysAllowed(w.history, own, id, sks);
    StaysQuiet(own, w, id, w'.peers[id], w');
  }

  lemma OwnKeysAllowed(h: History, own: Owners, id: MemberId, sks: ShareKeyMap)
    requires Valid(h) && OwnKeys(own, id, sks)
    ensures KeysAllowed(h, own, id, sks)
  {
    hide Valid;
    forall s | s in Filed(sks)
      ensures MayKnow(h, FreshSeeds(Filed(sks)), s)
    {
      assert s.seed in FreshSeeds(Filed(sks));
    }
  }

  lemma DeliverQuiet(own: Owners, w: World, r: MemberId, d: Digest, w': World)
    requires Quiet(own, w) && Next(w, Deliver(r, d), w')
    ensures Quiet(own, w')
  {
    hide Quiet, Valid, KeysAllowed, AddsMember, RemovesMember, UpdatesOwn, Merges, ReadsKey, Records, Idles, MergedLog;
    var h, p := w.history, w.peers[r];
    PeerIsQuiet(own, w, r);
    var s, res :| Merges(p.state, d, h.events[d].op, s, res)
                  && w' == w.(peers := w.peers[r := Peer(s, MergedLog(p, d, h.events[d].op))]);
    MergeKeeps(p.state, d, h.events[d].op, s, res);
    StaysQuiet(own, w, r, w'.peers[r], w');
  }

  lemma PrekeyQuiet(own: Owners, w: World, r: MemberId, seed: nat, w': World)
    requires Inv(w) && Quiet(own, w) && Next(w, MakePrekey(r, seed), w') && own(seed) == Some(r)
    ensures Quiet(own, w')
  {
    hide Inv, Quiet, Valid, KeysAllowed, HoldsKeys, Follows, AddsMember, RemovesMember, UpdatesOwn, Merges, ReadsKey,
         Records, Idles, MergedLog;
    PeerIsFine(w, r);
    PeerIsQuiet(own, w, r);
    OwnKeyAllowed(w.history, own, r, w.peers[r].state.sks, seed);
    StaysQuiet(own, w, r, w'.peers[r], w');
  }

  // ----- Reading the root -----

  /** The key of an inner node above the leaf. */
  ghost predicate KeyAbove(t: Tree, i: nat, pk: ShareKey) {
    exists k: nat :: 0 < k <= t.depth && !Skip(t, Anc(i, k)) && pk == PkAt(t, Anc(i, k))
  }

  /** The walk files nothing but keys of nodes above its leaf. */
  lemma {:induction false} ClimbLearns(t: Tree, i: nat, k: nat, key: NodeKey, seen: seq<Node>, sks: ShareKeyMap,
                                       lca: Node, last: Option<Secret>, pk: ShareKey)
    requires k <= t.depth && HasRootKey(t) && Anc(i, t.depth) == Root(t.depth)
    requires pk in Climb(t, i, k, key, seen, sks, lca, last).1
    ensures pk in sks || KeyAbove(t, i, pk)
    decreases t.depth - k
  {
    if k < t.depth {
      var p := Anc(i, k + 1);
      if Skip(t, p) {
        hide *;
        ClimbSkips(t, i, k, key, seen, sks, lca, last);
        ClimbLearns(t, i, k + 1, key, seen, sks, lca, last, pk);
      } else {
        hide Climb, HasRootKey, Skip, Opened, KeyAt, PkAt, RatchetN;
        ClimbOpens(t, i, k, key, seen, sks, lca, last);
        var got := Opened(t, p, key, seen, sks);
        if got.Ok? && p != lca && pk != PkAt(t, p) {
          ClimbLearns(t, i, k + 1, KeyAt(t, p), seen + [p], sks[PkAt(t, p) := got.value], lca, Some(got.value), pk);
        }
      }
    }
  }

  lemma DecryptLearns(t: Tree, id: MemberId, sks: ShareKeyMap, pk: ShareKey)
    requires WF(t) && TreeReads(t, id) && id in t.ids && pk in DecryptTreeSecret(t, id, sks).1
    ensures pk in sks || KeyAbove(t, t.ids[id], pk)
  {
    hide Climb, Skip, RatchetN, KeyAbove, MeetLevel;
    var i := t.ids[id];
    if HasRootKey(t) && t.encrypter.value != i {
      AncRoot(i, t.depth);
      ClimbLearns(t, i, 0, t.leaves[i].pk, [Leaf(i)], sks, Anc(i, MeetLevel(i, t.encrypter.value)), None, pk);
    }
  }

  lemma AboveIsRatcheted(h: History, ds: set<Digest>, t: Tree, n: Node)
    requires Valid(h) && Closed(h, ds) && Represents(h, ds, t) && n.level > 0 && !Skip(t, n)
    ensures PkAt(t, n).secret.Ratcheted?
  {
    hide Valid, Represents;
    var a := SingleVersionIsLast(h, ds, t, n);
    UpdateStore(h, a, n.level);
  }

  lemma LearnedAllowed(h: History, own: Owners, ds: set<Digest>, t: Tree, r: MemberId, sks: ShareKeyMap)
    requires Valid(h) && Closed(h, ds) && Represents(h, ds, t) && HasRootKey(t)
    requires HoldsKeys(h, r, sks) && KeysAllowed(h, own, r, sks) && TreeReads(t, r) && r in t.ids
    ensures KeysAllowed(h, own, r, DecryptTreeSecret(t, r, sks).1)
  {
    hide Valid, Represents, DecryptTreeSecret, MayKnow, HasRootKey, WF, KeysAllowed, Filed, Skip, PkAt;
    var a := RootIsRead(h, ds, t, r, sks);
    RepresentsBounds(h, ds, t);
    var out := DecryptTreeSecret(t, r, sks).1;
    LeafSeedFiled(h, ds, t, r, sks);
    forall pk | pk in out && pk !in sks
      ensures !pk.secret.Fresh? && MayKnow(h, FreshSeeds(Filed(sks)), pk.secret)
    {
      DecryptLearns(t, r, sks, pk);
      var k: nat :| 0 < k <= t.depth && !Skip(t, Anc(t.ids[r], k)) && pk == PkAt(t, Anc(t.ids[r], k));
      AboveIsRatcheted(h, ds, t, Anc(t.ids[r], k));
      KnownAbove(h, FreshSeeds(Filed(sks)), ds, t, r, k);
    }
    MoreAllowed(h, own, r, sks, out);
  }

  lemma LeafSeedFiled(h: History, ds: set<Digest>, t: Tree, r: MemberId, sks: ShareKeyMap)
    requires Valid(h) && Closed(h, ds) && Represents(h, ds, t) && r in t.ids && HoldsKeys(h, r, sks)
    ensures Linked(t) && LeafSecret(t, r) in Filed(sks) && Seed(LeafSecret(t, r)) in FreshSeeds(Filed(sks))
  {
    hide Valid, Represents, HoldsKeys, HoldsLeafKey;
    var d := LeafIsFresh(h, ds, t, r);
    HeldLeaf(h, d, r, sks);
  }

  lemma HeldLeaf(h: History, d: Digest, r: MemberId, sks: ShareKeyMap)
    requires HoldsKeys(h, r, sks) && d in h.events && !h.events[d].op.Remove? && Author(h.events[d].op) == r
    ensures Fresh(h.events[d].seed) in Filed(sks)
  {
    assert Files(sks, sks[ShareKey(Fresh(h.events[d].seed))]);
  }

  lemma ReadQuiet(own: Owners, w: World, r: MemberId, w': World)
    requires Inv(w) && Quiet(own, w) && Next(w, ReadRoot(r), w')
    ensures Quiet(own, w')
  {
    hide Inv, Quiet, AllGuarded, KeysAllowed, Valid, NamesMaxima, HoldsKeys, DecryptTreeSecret, Represents, Causal, Run,
         AddsMember, RemovesMember, UpdatesOwn, Merges, Records, Idles, MergedLog;
    var h, p := w.history, w.peers[r];
    PeerIsFine(w, r);
    PeerIsQuiet(own, w, r);
    FollowsFacts(h, p);
    var s, res :| ReadsKey(p.state, s, res) && w' == w.(peers := w.peers[r := p.(state := s)]);
    if r in p.state.tree.ids {
      LearnedAllowed(h, own, ToSet(p.log), p.state.tree, r, p.state.sks);
    } else {
      NotAMember(p.state.tree, r, p.state.sks);
    }
    StaysQuiet(own, w, r, w'.peers[r], w');
  }

  // ----- Every reachable world -----

  lemma NextQuiet(own: Owners, w: World, a: Action, w': World)
    requires Inv(w) && Inv(w') && Quiet(own, w) && Next(w, a, w') && Private(own, a)
    ensures Quiet(own, w')
  {
    hide Inv, Next, Quiet;
    match a
    case AddMember(r, id, seed, d) => AddQuiet(own, w, r, id, seed, d, w');
    case RemoveMember(r, id, d) => RemoveQuiet(own, w, r, id, d, w');
    case UpdateOwn(r, seed, draw, d) => UpdateQuiet(own, w, r, seed, draw, d, w');
    case Deliver(r, d) => DeliverQuiet(own, w, r, d, w');
    case Join(r, id, sks) => JoinQuiet(own, w, r, id, sks, w');
    case MakePrekey(r, seed) => PrekeyQuiet(own, w, r, seed, w');
    case ReadRoot(r) => ReadQuiet(own, w, r, w');
  }

  lemma InitQuiet(own: Owners, w: World, id: MemberId, seed: nat, d: Digest)
    requires Init(w, id, seed, d) && own(seed) == Some(id)
    ensures Quiet(own, w)
  {
    hide NewTree, AddOp, Valid, KeysAllowed;
    FirstValid(w.history, id, seed, d);
    OwnKeysAllowed(w.history, own, id, map[ShareKey(Fresh(seed)) := Fresh(seed)]);
  }

  lemma {:induction false} RunQuiet(ws: seq<World>, acts: seq<Action>, id: MemberId, seed: nat, d: Digest, own: Owners,
                                    k: nat)
    requires PrivateRun(ws, acts, id, seed, d, own) && k < |ws|
    ensures Inv(ws[k]) && Quiet(own, ws[k])
  {
    hide Inv, Next, Init, Quiet, Private;
    RunInv(ws, acts, id, seed, d, k);
    if k == 0 {
      InitQuiet(own, ws[0], id, seed, d);
    } else {
      RunQuiet(ws, acts, id, seed, d, own, k - 1);
      NextQuiet(own, ws[k - 1], acts[k - 1], ws[k]);
    }
  }

  lemma NextGrows(w: World, a: Action, w': World)
    requires Next(w, a, w')
    ensures Grows(w.history, w'.history)
  {
    hide AddsMember, RemovesMember, UpdatesOwn, Merges, ReadsKey, MergedLog, Sensible, Calm, BaseLog, HoldsKeys, HasKey;
  }

  lemma {:induction false} HistoryGrows(ws: seq<World>, acts: seq<Action>, id: MemberId, seed: nat, d: Digest, i: nat,
                                        j: nat)
    requires IsRun(ws, acts, id, seed, d) && i <= j < |ws|
    ensures Grows(ws[i].history, ws[j].history)
    decreases j
  {
    hide Next, Init;
    if i < j {
      HistoryGrows(ws, acts, id, seed, d, i, j - 1);
      NextGrows(ws[j - 1], acts[j - 1], ws[j]);
    }
  }

  // ----- What can be made of what replicas hold -----

  ghost predicate HeldIn(w: World, who: iset<MemberId>, s: Secret) {
    exists r :: r in who && r in w.peers && s in Filed(w.peers[r].state.sks)
  }

  /** Everything the replicas of a circle of members hold. */
  ghost function Pool(w: World, who: iset<MemberId>): iset<Secret> {
    iset s | HeldIn(w, who, s)
  }

  /** What replicas hold is known, also later, from the fresh secrets among it, and these were
      generated by the replicas' members. */
  lemma PoolIsAllowed(own: Owners, w: World, h: History, who: iset<MemberId>)
    requires Quiet(own, w) && Valid(h) && Grows(w.history, h)
    ensures Pool(w, who) <= Knowledge(h, FreshSeeds(Pool(w, who)))
    ensures forall x :: x in FreshSeeds(Pool(w, who)) ==> own(x).Some? && own(x).value in who
  {
    hide Valid, AllGuarded, Knowledge, Filed, Grows;
    var held := Pool(w, who);
    forall s | s in held
      ensures s in Knowledge(h, FreshSeeds(held))
    {
      var r :| r in who && r in w.peers && s in Filed(w.peers[r].state.sks);
      var mine := FreshSeeds(Filed(w.peers[r].state.sks));
      assert KeysAllowed(w.history, own, r, w.peers[r].state.sks);
      assert mine <= FreshSeeds(held);
      KnowledgeGrows(w.history, h, mine, FreshSeeds(held));
    }
    forall x | x in FreshSeeds(held)
      ensures own(x).Some? && own(x).value in who
    {
      var r :| r in who && r in w.peers && Fresh(x) in Filed(w.peers[r].state.sks);
      assert KeysAllowed(w.history, own, r, w.peers[r].state.sks);
    }
  }

  lemma PoolInRun(ws: seq<World>, acts: seq<Action>, id: MemberId, seed: nat, d: Digest, own: Owners, i: nat, j: nat,
                  who: iset<MemberId>)
    requires PrivateRun(ws, acts, id, seed, d, own) && i <= j < |ws|
    ensures var h, held := ws[j].history, Pool(ws[i], who);
            && Valid(h) && AllGuarded(h, own) && held <= Knowledge(h, FreshSeeds(held))
            && forall x :: x in FreshSeeds(held) ==> own(x).Some? && own(x).value in who
  {
    hide Inv, Quiet, Valid, IsRun, AllGuarded, Pool, Knowledge;
    RunQuiet(ws, acts, id, seed, d, own, i);
    RunQuiet(ws, acts, id, seed, d, own, j);
    QuietFacts(own, ws[j]);
    HistoryGrows(ws, acts, id, seed, d, i, j);
    PoolIsAllowed(own, ws[i], ws[j].history, who);
  }

  lemma QuietFacts(own: Owners, w: World)
    requires Quiet(own, w)
    ensures Valid(w.history) && AllGuarded(w.history, own)
  {}

  /** Main result: whoever gets hold of everything that some replicas hold at one time, and sees
      everything published until a later time, can derive what an update wrote at a node exactly
      when one of those replicas held the key that a leaf below the node had in the tree the
      update left. */
  lemma SecretInRun(ws: seq<World>, acts: seq<Action>, id: MemberId, seed: nat, d: Digest, own: Owners, i: nat, j: nat,
                    a: Digest, k: nat, who: iset<MemberId>)
    requires PrivateRun(ws, acts, id, seed, d, own) && i <= j < |ws|
    requires a in ws[j].history.events && ws[j].history.events[a].op.Update?
    ensures var h := ws[j].history;
            && Valid(h)
            && (Derivable(Pool(ws[i], who), Published(h), RatchetN(Fresh(h.events[a].seed), k)) <==>
                LeafHeldBelow(h, a, k, Pool(ws[i], who)))
  {
    hide PrivateRun, Valid, AllGuarded, Pool, Knowledge, Derivable, Published, RatchetN, LeafHeldBelow;
    PoolInRun(ws, acts, id, seed, d, own, i, j, who);
    SecretIff(ws[j].history, own, a, k, Pool(ws[i], who));
  }

  /** Removed members: in every reachable world, members removed before an update was made, and
      not added again by then, cannot derive its root secret, nor anything else it wrote,
      however they pool what their replicas hold. */
  lemma RemovedInRun(ws: seq<World>, acts: seq<Action>, id: MemberId, seed: nat, d: Digest, own: Owners, i: nat,
                     a: Digest, k: nat, who: iset<MemberId>)
    requires PrivateRun(ws, acts, id, seed, d, own) && i < |ws|
    requires var h := ws[i].history; a in h.events && h.events[a].op.Update? && AllRemoved(h, a, who)
    ensures var h := ws[i].history;
            !Derivable(Pool(ws[i], who), Published(h), RatchetN(Fresh(h.events[a].seed), k))
  {
    hide PrivateRun, Valid, AllGuarded, Pool, Knowledge, Derivable, Published, RatchetN, AllRemoved;
    PoolInRun(ws, acts, id, seed, d, own, i, i, who);
    RemovedLearnNothing(ws[i].history, own, a, k, who, Pool(ws[i], who));
  }

  /** The member's leaf key, in the tree that update `a` left, was not yet in its replica. */
  ghost predicate Renewed(w: World, h: History, a: Digest, r: MemberId)
    requires Valid(h) && a in h.events && h.events[a].op.Update?
  {
    r in Post(h, a).ids && r in w.peers ==> LeafSecret(Post(h, a), r) !in Filed(w.peers[r].state.sks)
  }

  /** Post-compromise security: everything that some replicas hold leaks. Once each of their
      members has a new leaf key, what an update writes cannot be derived from the leak. */
  lemma HealedInRun(ws: seq<World>, acts: seq<Action>, id: MemberId, seed: nat, d: Digest, own: Owners, i: nat, j: nat,
                    a: Digest, k: nat, who: iset<MemberId>)
    requires PrivateRun(ws, acts, id, seed, d, own) && i <= j < |ws|
    requires Valid(ws[j].history) && a in ws[j].history.events && ws[j].history.events[a].op.Update?
    requires forall r :: r in who ==> Renewed(ws[i], ws[j].history, a, r)
    ensures var h := ws[j].history;
            !Derivable(Pool(ws[i], who), Published(h), RatchetN(Fresh(h.events[a].seed), k))
  {
    hide Valid, AllGuarded, Derivable, Published, RatchetN, Post, MeetLevel, Filed, IsRun, Quiet, Inv, KeysAllowed,
         Represents, LeafSecret;
    var h := ws[j].history;
    SecretInRun(ws, acts, id, seed, d, own, i, j, a, k, who);
    RunQuiet(ws, acts, id, seed, d, own, i);
    RunQuiet(ws, acts, id, seed, d, own, j);
    QuietFacts(own, ws[j]);
    CreatorRepresents(h, a);
    forall q | q in Post(h, a).ids
      ensures LeafSecret(Post(h, a), q) !in Pool(ws[i], who)
    {
      forall r | r in who && r in ws[i].peers
        ensures LeafSecret(Post(h, a), q) !in Filed(ws[i].peers[r].state.sks)
      {
        assert Renewed(ws[i], h, a, r);
        if LeafSecret(Post(h, a), q) in Filed(ws[i].peers[r].state.sks) {
          OnlyOwnLeaf(own, ws[i], h, UpTo(h, a), Post(h, a), q, r);
        }
      }
    }
  }

  /** A replica holds nobody's leaf key but its own member's. */
  lemma OnlyOwnLeaf(own: Owners, w: World, h: History, ds: set<Digest>, t: Tree, q: MemberId, r: MemberId)
    requires Quiet(own, w) && Valid(h) && AllGuarded(h, own) && Closed(h, ds) && Represents(h, ds, t) && q in t.ids
    requires Linked(t) && r in w.peers && LeafSecret(t, q) in Filed(w.peers[r].state.sks)
    ensures r == q
  {
    hide Valid, AllGuarded, Represents, Filed, Quiet;
    LeafIsOwn(h, own, ds, t, q);
    var d := LeafIsFresh(h, ds, t, q);
    PeerIsQuiet(own, w, r);
  }
}
