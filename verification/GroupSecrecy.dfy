/** Who can learn the secrets of a whole history.

    An intruder has got hold of some of the secrets members generated, at whatever times, and
    sees every ciphertext ever published. It can then derive what an update wrote at a node
    exactly when it has the key of a leaf below that node in the tree the update left. So
    removed members learn nothing, and a compromised member's next update shuts an intruder
    out again. */
module GroupSecrecy {
  import opened Results
  import opened Seqs
  import opened Nodes
  import opened Crypto
  import opened NodeKeys
  import opened KeyTree
  import opened Agreement
  import opened WellFormed
  import opened Operations
  import opened Resolutions
  import opened History
  import opened Convergence
  import opened GroupAgreement
  import opened Secrecy

  /** Which member keeps a generated secret, by its seed; nobody keeps a throwaway. */
  type Owners = nat -> Option<MemberId>

  /** The secrets are fresh and nobody keeps them. */
  ghost predicate Throwaways(own: Owners, draw: nat -> Secret) {
    forall j :: draw(j).Fresh? && own(draw(j).seed).None?
  }

  /** The operation's key was generated by the member it is for, and the pairs an update drew for
      sealing alone are not kept. */
  ghost predicate Guarded(own: Owners, e: Event, t: Tree)
    requires Linked(t)
  {
    match e.op
    case Add(id, _, _, _, _) => own(e.seed) == Some(id)
    case Remove(_, _, _, _) => true
    case Update(id, change, _) =>
      && own(e.seed) == Some(id) && id in t.ids
      && exists draw: nat -> Secret :: Throwaways(own, draw) && change == EncryptedChange(t, id, Fresh(e.seed), draw)
  }

  ghost predicate AllGuarded(h: History, own: Owners) {
    forall d :: d in h.events ==> Known(h, h.events[d].order) && Guarded(own, h.events[d], Run(h, h.events[d].order))
  }

  lemma GuardedAt(h: History, own: Owners, d: Digest)
    requires AllGuarded(h, own) && d in h.events
    ensures Known(h, h.events[d].order) && Guarded(own, h.events[d], Run(h, h.events[d].order))
  {}

  /** Update `d` sealed the ciphertext `j + 1` levels above its leaf. */
  ghost predicate SealedIn(h: History, d: Digest, j: nat, e: EncryptedSecret) {
    d in h.events && h.events[d].op.Update? && j < |h.events[d].op.change.path|
    && EntryOf(h.events[d].op.change.path[j].1, e)
  }

  ghost predicate IsPublished(h: History, e: EncryptedSecret) {
    exists d, j: nat :: SealedIn(h, d, j, e)
  }

  /** Everything ever sealed is public. */
  ghost function Published(h: History): iset<EncryptedSecret> {
    iset e | IsPublished(h, e)
  }

  // ----- What an intruder may know -----

  /** Leaked are secrets that members generated and kept. */
  ghost predicate OnlyKept(own: Owners, leaked: iset<nat>) {
    forall x :: x in leaked ==> own(x).Some?
  }

  ghost function LeafSecret(t: Tree, q: MemberId): Secret
    requires Linked(t) && q in t.ids
  {
    PkAt(t, Leaf(t.ids[q])).secret
  }

  /** The leaf key of member `q` has leaked, and its path meets that of leaf `e` by level `k`. */
  ghost predicate Tapped(t: Tree, leaked: iset<nat>, q: MemberId, e: nat, k: nat)
    requires Linked(t)
  {
    q in t.ids && Seed(LeafSecret(t, q)) in leaked && MeetLevel(t.ids[q], e) <= k
  }

  /** The secret comes from update `b`, from at or above where the path of member `q`, whose leaf
      key in the tree that `b` left has leaked, meets the updater's. */
  ghost predicate LeaksAt(h: History, leaked: iset<nat>, b: Digest, q: MemberId, s: Secret)
    requires Valid(h)
  {
    && b in h.events && h.events[b].op.Update? && h.events[b].seed == Seed(s)
    && Tapped(Post(h, b), leaked, q, h.events[b].op.change.leafIdx, RatchetCount(s))
  }

  ghost predicate MayKnow(h: History, leaked: iset<nat>, s: Secret)
    requires Valid(h)
  {
    Seed(s) in leaked || exists b, q :: LeaksAt(h, leaked, b, q, s)
  }

  ghost function Knowledge(h: History, leaked: iset<nat>): iset<Secret>
    requires Valid(h)
  {
    iset s | MayKnow(h, leaked, s)
  }

  lemma {:induction false} RatchetParts(s: Secret, n: nat)
    ensures Seed(RatchetN(s, n)) == Seed(s) && RatchetCount(RatchetN(s, n)) == RatchetCount(s) + n
  {
    if n > 0 {
      RatchetParts(s, n - 1);
    }
  }

  lemma LeakIsKnown(h: History, leaked: iset<nat>, b: Digest, q: MemberId, s: Secret)
    requires Valid(h) && LeaksAt(h, leaked, b, q, s)
    ensures MayKnow(h, leaked, s)
  {}

  lemma SeedIsKnown(h: History, leaked: iset<nat>, s: Secret)
    requires Valid(h) && Seed(s) in leaked
    ensures MayKnow(h, leaked, s)
  {}

  lemma KnowRatcheted(h: History, leaked: iset<nat>, s: Secret)
    requires Valid(h) && MayKnow(h, leaked, s)
    ensures MayKnow(h, leaked, Ratcheted(s))
  {
    hide Valid, Post, MeetLevel, LeafSecret;
    if Seed(s) !in leaked {
      var b, q :| LeaksAt(h, leaked, b, q, s);
      assert LeaksAt(h, leaked, b, q, Ratcheted(s));
    }
  }

  // ----- The tree an update leaves -----

  lemma CreatorRepresents(h: History, d: Digest)
    requires Valid(h) && d in h.events && h.events[d].op.Update?
    ensures Known(h, h.events[d].order) && Closed(h, Past(h, d)) && Represents(h, Past(h, d), Run(h, h.events[d].order))
    ensures Closed(h, UpTo(h, d)) && Represents(h, UpTo(h, d), Post(h, d))
  {
    hide Valid, Run, Represents;
    UpdateFacts(h, d);
    PostRepresents(h, d);
  }

  lemma EncryptedLeaves(t: Tree, id: MemberId, sk: Secret, draw: nat -> Secret)
    requires id in t.ids && t.ids[id] in t.leaves
    ensures var u := EncryptedTree(t, id, sk, draw);
            && u.depth == t.depth && u.ids == t.ids
            && u.leaves == t.leaves[t.ids[id] := LeafNode(id, Single(ShareKey(sk)))]
  {}

  /** The same members in the same slots, and only the author's leaf key is new. */
  lemma PostLeaves(h: History, a: Digest)
    requires Valid(h) && a in h.events && h.events[a].op.Update?
    ensures Known(h, h.events[a].order)
    ensures var u, t, e := Run(h, h.events[a].order), Post(h, a), h.events[a].op.change.leafIdx;
            && t.ids == u.ids && t.depth == |h.events[a].op.change.path| && WF(t)
            && h.events[a].op.memberId in t.ids && t.ids[h.events[a].op.memberId] == e
            && t.leaves == u.leaves[e := LeafOf(h.events[a])]
  {
    hide Valid, Represents, Run, EncryptedTree, Post, WF;
    UpdateFacts(h, a);
    CreatorRepresents(h, a);
    var draw := PostIsEncrypted(h, a);
    RepresentsBounds(h, UpTo(h, a), Post(h, a));
    EncryptedLeaves(Run(h, h.events[a].order), h.events[a].op.memberId, Fresh(h.events[a].seed), draw);
  }

  lemma LeavesMatch(h: History, ds: set<Digest>, t: Tree, i: nat)
    requires Valid(h) && Closed(h, ds) && Represents(h, ds, t)
    ensures LeafMatch(h, ds, t, i) && WF(t)
  {
    hide Valid, LeafMatch;
  }

  /** The leaf of every member, in every replica's tree, has the fresh key of an operation of
      that member. */
  lemma LeafIsFresh(h: History, ds: set<Digest>, t: Tree, q: MemberId) returns (d: Digest)
    requires Valid(h) && Closed(h, ds) && Represents(h, ds, t) && q in t.ids
    ensures d in ds && d in h.events && !h.events[d].op.Remove? && Author(h.events[d].op) == q
    ensures Linked(t) && LeafSecret(t, q) == Fresh(h.events[d].seed)
  {
    hide Valid, Represents, IsLive;
    var i := t.ids[q];
    LeavesMatch(h, ds, t, i);
    d :| d in Live(h, ds, Leaf(i)) && !h.events[d].op.Remove? && t.leaves[i] == LeafOf(h.events[d]);
    LiveIsApplied(h, ds, Leaf(i), d);
  }

  // ----- Whose leak reveals a node -----

  /** A secret before any ratcheting is known only if it leaked itself. */
  lemma FreshIsLeaked(h: History, leaked: iset<nat>, x: nat)
    requires Valid(h) && MayKnow(h, leaked, Fresh(x))
    ensures x in leaked
  {
    hide Valid, Run, Post, WF;
    if x !in leaked {
      var b, q :| LeaksAt(h, leaked, b, q, Fresh(x));
      PostLeaves(h, b);
    }
  }

  /** What an update wrote at level `k` is known only through a leaked leaf key below. */
  lemma UpdateHolder(h: History, leaked: iset<nat>, a: Digest, k: nat) returns (q: MemberId)
    requires Valid(h) && a in h.events && h.events[a].op.Update?
    requires MayKnow(h, leaked, RatchetN(Fresh(h.events[a].seed), k))
    ensures Tapped(Post(h, a), leaked, q, h.events[a].op.change.leafIdx, k)
  {
    hide Run, Post, WF;
    var s := RatchetN(Fresh(h.events[a].seed), k);
    PostLeaves(h, a);
    RatchetParts(Fresh(h.events[a].seed), k);
    if Seed(s) in leaked {
      q := h.events[a].op.memberId;
    } else {
      var b;
      b, q :| LeaksAt(h, leaked, b, q, s);
      assert BothKeyed(h.events[a].op, h.events[b].op);
    }
  }

  /** In every replica's tree, a node's secret is known only through a leaked leaf key below. */
  lemma NodeHolder(h: History, leaked: iset<nat>, ds: set<Digest>, t: Tree, n: Node) returns (q: MemberId)
    requires Valid(h) && Closed(h, ds) && Represents(h, ds, t) && !Skip(t, n)
    requires MayKnow(h, leaked, PkAt(t, n).secret)
    ensures Linked(t) && q in t.ids && Under(t.ids[q], n) && Seed(LeafSecret(t, q)) in leaked
  {
    hide Valid, Represents, Run, MayKnow;
    if n.level == 0 {
      q := LeafHolder(h, leaked, ds, t, n.pos);
    } else {
      var a := SingleVersionIsLast(h, ds, t, n);
      q := InnerHolder(h, leaked, ds, t, n, a);
    }
  }

  lemma LeafHolder(h: History, leaked: iset<nat>, ds: set<Digest>, t: Tree, i: nat) returns (q: MemberId)
    requires Valid(h) && Closed(h, ds) && Represents(h, ds, t) && i in t.leaves
    requires MayKnow(h, leaked, PkAt(t, Leaf(i)).secret)
    ensures Linked(t) && q in t.ids && t.ids[q] == i && Seed(LeafSecret(t, q)) in leaked
  {
    hide Valid, Represents, Run, MayKnow, LeafMatch;
    LeavesMatch(h, ds, t, i);
    q := t.leaves[i].id;
    var d := LeafIsFresh(h, ds, t, q);
    FreshIsLeaked(h, leaked, h.events[d].seed);
  }

  lemma InnerHolder(h: History, leaked: iset<nat>, ds: set<Digest>, t: Tree, n: Node, a: Digest) returns (q: MemberId)
    requires Valid(h) && Closed(h, ds) && Represents(h, ds, t) && n.level > 0 && !Skip(t, n)
    requires a in ds && a in h.events && h.events[a].op.Update? && Live(h, ds, n) == {a}
    requires IsVersion(h.events[a], n, t.inner[n].versions[0]) && MayKnow(h, leaked, PkAt(t, n).secret)
    ensures Linked(t) && q in t.ids && Under(t.ids[q], n) && Seed(LeafSecret(t, q)) in leaked
  {
    hide Valid, Represents, Run, MayKnow, Live, Post, MeetLevel;
    var e := h.events[a].op.change.leafIdx;
    UpdateStore(h, a, n.level);
    q := UpdateHolder(h, leaked, a, n.level);
    SingleIsOnPath(h, ds, n, a);
    var i := Post(h, a).ids[q];
    MeetLevelIsFirst(i, e, n.level);
    LeafStays(h, ds, t, n, a, i);
    RepresentsBounds(h, ds, t);
    SameSlot(t, Post(h, a), q);
  }

  /** Below a node with one version, the leaves are as when that version was written. */
  lemma LeafStays(h: History, ds: set<Digest>, t: Tree, n: Node, a: Digest, i: nat)
    requires Valid(h) && Closed(h, ds) && Represents(h, ds, t) && a in h.events && h.events[a].op.Update?
    requires Live(h, ds, n) == {a} && Under(i, n)
    ensures (i in t.leaves <==> i in Post(h, a).leaves) && (i in t.leaves ==> t.leaves[i] == Post(h, a).leaves[i])
  {
    hide Valid, Represents, Run, Live, Post, LeafMatch, WF;
    CreatorRepresents(h, a);
    LiveBelow(h, ds, i, n.level, a, 0);
    LeavesMatch(h, ds, t, i);
    LeavesMatch(h, UpTo(h, a), Post(h, a), i);
    SameLeaf(h, ds, UpTo(h, a), t, Post(h, a), i);
  }

  /** A leaked leaf key lets every node above it be known. */
  lemma KnownAbove(h: History, leaked: iset<nat>, ds: set<Digest>, t: Tree, q: MemberId, k: nat)
    requires Valid(h) && Closed(h, ds) && Represents(h, ds, t) && Linked(t) && q in t.ids
    requires Seed(LeafSecret(t, q)) in leaked && k <= t.depth && !Skip(t, Anc(t.ids[q], k))
    ensures MayKnow(h, leaked, PkAt(t, Anc(t.ids[q], k)).secret)
  {
    hide Valid, Represents, Run, MayKnow, MeetLevel, Live, Post, WF;
    var i := t.ids[q];
    if k == 0 {
      SeedIsKnown(h, leaked, LeafSecret(t, q));
    } else {
      var a := SingleVersionIsLast(h, ds, t, Anc(i, k));
      UpdateStore(h, a, k);
      LeafStays(h, ds, t, Anc(i, k), a, i);
      PostLeaves(h, a);
      SameSlot(Post(h, a), t, q);
      SingleIsOnPath(h, ds, Anc(i, k), a);
      MeetLevelIsFirst(i, h.events[a].op.change.leafIdx, k);
      RatchetParts(Fresh(h.events[a].seed), k);
      LeakIsKnown(h, leaked, a, q, RatchetN(Fresh(h.events[a].seed), k));
    }
  }

  lemma SameSlot(t: Tree, u: Tree, q: MemberId)
    requires WF(t) && Linked(u) && q in u.ids && u.ids[q] in t.leaves && t.leaves[u.ids[q]] == u.leaves[u.ids[q]]
    ensures q in t.ids && t.ids[q] == u.ids[q] && LeafSecret(t, q) == LeafSecret(u, q)
  {}

  // ----- Opening what was published -----

  lemma GuardedDraws(own: Owners, e: Event, t: Tree) returns (draw: nat -> Secret)
    requires Linked(t) && Guarded(own, e, t) && e.op.Update?
    ensures var id := e.op.memberId;
            Throwaways(own, draw) && id in t.ids && e.op.change == EncryptedChange(t, id, Fresh(e.seed), draw)
  {
    draw :| Throwaways(own, draw) && e.op.change == EncryptedChange(t, e.op.memberId, Fresh(e.seed), draw);
  }

  lemma ChangeStores(t: Tree, id: MemberId, sk: Secret, draw: nat -> Secret, j: nat)
    requires id in t.ids && t.ids[id] in t.leaves && j < |EncryptedChange(t, id, sk, draw).path|
    ensures var c := EncryptedChange(t, id, sk, draw);
            c.leafIdx == t.ids[id] && c.path[j].1 == NewStore(t, Anc(c.leafIdx, j), RatchetN(sk, j), draw(j))
  {}

  /** The key of some node that `m` resolves to. */
  ghost predicate ResolvedKey(t: Tree, m: Node, pk: ShareKey) {
    exists n :: n in Resolution(t, m) && pk == PkAt(t, n)
  }

  lemma EntryEnds(t: Tree, child: Node, childSk: Secret, paired: Secret, e: EncryptedSecret)
    requires EntryOf(NewStore(t, child, childSk, paired), e)
    ensures e.plaintext == Ratcheted(childSk) && e.key == DeriveSymmetricKey(childSk, e.pairedPk)
    ensures e.pairedPk == ShareKey(paired) || ResolvedKey(t, Sibling(child), e.pairedPk)
  {
    hide Resolution, NewStore, PkAt, Skip;
    NewStoreSealed(t, child, childSk, paired);
    var w, n :| w in NewStore(t, child, childSk, paired).versions && n in w.sk && w.sk[n] == e;
    var res := Resolution(t, Sibling(child));
    if n !in res && res != [] {
      assert res[0] in res;
    }
  }

  /** What an update sealed: the secret of one level, under a key agreed between the secret one
      level below and that of a node on the other side or of a throwaway pair. */
  lemma EntryFacts(h: History, own: Owners, d: Digest, j: nat, e: EncryptedSecret)
    requires Valid(h) && AllGuarded(h, own) && SealedIn(h, d, j, e)
    ensures Known(h, h.events[d].order)
    ensures var u, sk := Run(h, h.events[d].order), Fresh(h.events[d].seed);
            && e.plaintext == Ratcheted(RatchetN(sk, j)) && e.key == DeriveSymmetricKey(RatchetN(sk, j), e.pairedPk)
            && (|| (e.pairedPk.secret.Fresh? && own(e.pairedPk.secret.seed).None?)
                || ResolvedKey(u, Sibling(Anc(h.events[d].op.change.leafIdx, j)), e.pairedPk))
  {
    hide Valid, Run, AllGuarded, Resolution, NewStore, PkAt, Skip, EntryOf, EncryptedChange, Guarded, ResolvedKey;
    GuardedAt(h, own, d);
    var u, sk, i := Run(h, h.events[d].order), Fresh(h.events[d].seed), h.events[d].op.change.leafIdx;
    var draw := GuardedDraws(own, h.events[d], u);
    ChangeStores(u, h.events[d].op.memberId, sk, draw, j);
    EntryEnds(u, Anc(i, j), RatchetN(sk, j), draw(j), e);
  }

  /** Whoever is below a node on the other side meets the updater one level up, and is not the
      updater. */
  lemma UnderSibling(i: nat, e: nat, j: nat, n: Node, t: Tree)
    requires n in Resolution(t, Sibling(Anc(e, j))) && Under(i, n)
    ensures MeetLevel(i, e) <= j + 1 && i != e
  {
    hide Resolution, Skip, MeetLevel;
    ResolutionWithin(t, Sibling(Anc(e, j)), n);
    SpanIsUnder(i, n);
    SpanIsUnder(i, Sibling(Anc(e, j)));
    assert Anc(i, j + 1) == Anc(e, j + 1);
    MeetLevelIsFirst(i, e, j + 1);
  }

  /** Opening a published ciphertext teaches nothing one may not know. */
  lemma KnowOpened(h: History, own: Owners, leaked: iset<nat>, p: Secret, e: EncryptedSecret)
    requires Valid(h) && AllGuarded(h, own) && OnlyKept(own, leaked) && MayKnow(h, leaked, p)
    requires e in Published(h) && CanOpen(p, e)
    ensures MayKnow(h, leaked, e.plaintext)
  {
    hide Valid, Run, AllGuarded, Resolution, CanOpen, RatchetN, MayKnow, PkAt, SealedIn;
    var d, j: nat :| SealedIn(h, d, j, e);
    EntryFacts(h, own, d, j, e);
    SealedIsUpdate(h, d, j, e);
    var u, sk := Run(h, h.events[d].order), Fresh(h.events[d].seed);
    OpenedByAnEnd(p, e, RatchetN(sk, j), e.pairedPk);
    if p == RatchetN(sk, j) {
      KnowRatcheted(h, leaked, p);
    } else {
      if p.Fresh? && own(p.seed).None? {
        FreshIsLeaked(h, leaked, p.seed);
      }
      var n :| n in Resolution(u, Sibling(Anc(h.events[d].op.change.leafIdx, j))) && e.pairedPk == PkAt(u, n);
      OtherSideKnows(h, leaked, d, j, n);
    }
  }

  lemma SealedIsUpdate(h: History, d: Digest, j: nat, e: EncryptedSecret)
    requires SealedIn(h, d, j, e)
    ensures d in h.events && h.events[d].op.Update?
  {}

  lemma OtherSideKnows(h: History, leaked: iset<nat>, d: Digest, j: nat, n: Node)
    requires Valid(h) && d in h.events && h.events[d].op.Update? && Known(h, h.events[d].order)
    requires var u := Run(h, h.events[d].order);
             && n in Resolution(u, Sibling(Anc(h.events[d].op.change.leafIdx, j)))
             && MayKnow(h, leaked, PkAt(u, n).secret)
    ensures MayKnow(h, leaked, Ratcheted(RatchetN(Fresh(h.events[d].seed), j)))
  {
    hide Valid, Run, Resolution, RatchetN, MayKnow, Represents, Post, MeetLevel, WF, Skip;
    var u, e := Run(h, h.events[d].order), h.events[d].op.change.leafIdx;
    CreatorRepresents(h, d);
    var q := NodeHolder(h, leaked, Past(h, d), u, n);
    UnderSibling(u.ids[q], e, j, n, u);
    PostLeaves(h, d);
    SameSlot(Post(h, d), u, q);
    RatchetParts(Fresh(h.events[d].seed), j);
    LeakIsKnown(h, leaked, d, q, Ratcheted(RatchetN(Fresh(h.events[d].seed), j)));
  }

  lemma KnowledgeIsTight(h: History, own: Owners, leaked: iset<nat>)
    requires Valid(h) && AllGuarded(h, own) && OnlyKept(own, leaked)
    ensures Tight(Knowledge(h, leaked), Published(h))
  {
    hide Valid, AllGuarded, MayKnow, Published, CanOpen;
    var inside := Knowledge(h, leaked);
    forall s | s in inside
      ensures Ratcheted(s) in inside
    {
      KnowRatcheted(h, leaked, s);
    }
    forall p, e | p in inside && e in Published(h) && CanOpen(p, e)
      ensures e.plaintext in inside
    {
      KnowOpened(h, own, leaked, p, e);
    }
  }

  // ----- Leaf keys suffice -----

  lemma WrittenIsPublished(h: History, ds: set<Digest>, t: Tree, v: Node, n: Node)
    requires Valid(h) && Closed(h, ds) && Represents(h, ds, t) && v.level > 0 && !Skip(t, v)
    requires n in t.inner[v].versions[0].sk
    ensures t.inner[v].versions[0].sk[n] in Published(h)
  {
    hide Valid, Represents;
    var w := t.inner[v].versions[0];
    var a := SingleVersionIsLast(h, ds, t, v);
    assert EntryOf(h.events[a].op.change.path[v.level - 1].1, w.sk[n]) by {
      UpdateStore(h, a, v.level);
    }
    assert SealedIn(h, a, v.level - 1, w.sk[n]);
  }

  lemma EntryCanOpen(w: Version, n: Node, pk: ShareKey, s: Secret)
    requires EntryOpens(w, n, pk, s)
    ensures n in w.sk && CanOpen(pk.secret, w.sk[n]) && w.sk[n].plaintext == s
  {
    hide CanOpen;
    if pk == w.encrypterPk && w.sk[n].key == DeriveSymmetricKey(pk.secret, w.sk[n].pairedPk) {
      EndOpens(pk.secret, w.sk[n], w.sk[n].pairedPk);
    } else {
      DiffieHellmanCommutes(w.encrypterPk.secret, pk.secret);
      EndOpens(pk.secret, w.sk[n], w.encrypterPk);
    }
  }

  /** From the secret of a leaf, in any replica's tree, the secret of every node above it that is
      neither blank nor in conflict can be derived. */
  lemma {:induction false} PathDerivable(h: History, ds: set<Digest>, t: Tree, i: nat, k: nat, held: iset<Secret>)
    requires Valid(h) && Closed(h, ds) && Represents(h, ds, t) && i in t.leaves && k <= t.depth
    requires PkAt(t, Leaf(i)).secret in held
    ensures var n := Top(t, i, k); !Skip(t, n) && Derivable(held, Published(h), PkAt(t, n).secret)
  {
    hide Valid, Represents, Derivable, Published, CanOpen, EntryOpens, KeyAt;
    TopIsResolved(t, i, k);
    if k == 0 {
      HeldDerivable(held, Published(h), PkAt(t, Leaf(i)).secret);
    } else {
      PathDerivable(h, ds, t, i, k - 1, held);
      var n, v := Top(t, i, k - 1), Anc(i, k);
      if !Skip(t, v) {
        NodeReadable(h, ds, t, i, k);
        var w := t.inner[v].versions[0];
        EntryCanOpen(w, n, KeyAt(t, n).pk, w.pk.secret);
        WrittenIsPublished(h, ds, t, v, n);
        OpenDerivable(held, Published(h), PkAt(t, n).secret, w.sk[n]);
        KeyedIsSingle(t, i, v);
      }
    }
  }

  lemma BelowDerives(h: History, a: Digest, i: nat, k: nat, held: iset<Secret>)
    requires Valid(h) && a in h.events && h.events[a].op.Update? && k <= |h.events[a].op.change.path|
    requires i in Post(h, a).leaves && PkAt(Post(h, a), Leaf(i)).secret in held
    requires MeetLevel(i, h.events[a].op.change.leafIdx) <= k
    ensures Derivable(held, Published(h), RatchetN(Fresh(h.events[a].seed), k))
  {
    hide Valid, Represents, Derivable, Published, Run, MeetLevel, EncryptedTree, KeyAt, Skip;
    var e := h.events[a].op.change.leafIdx;
    CreatorRepresents(h, a);
    var draw := PostIsEncrypted(h, a);
    PostLeaves(h, a);
    UpdateIsChained(Run(h, h.events[a].order), h.events[a].op.memberId, Fresh(h.events[a].seed), draw);
    MeetLevelIsFirst(i, e, k);
    assert !Skip(Post(h, a), Anc(e, k));
    PathDerivable(h, UpTo(h, a), Post(h, a), i, k, held);
    assert Top(Post(h, a), i, k) == Anc(e, k);
  }

  /** Members meet the updater at the root at the latest. */
  lemma MeetInTree(t: Tree, r: MemberId, q: MemberId)
    requires WF(t) && r in t.ids && q in t.ids
    ensures MeetLevel(t.ids[r], t.ids[q]) <= t.depth
  {
    LeafInBounds(t, t.ids[r]);
    LeafInBounds(t, t.ids[q]);
    AncRoot(t.ids[r], t.depth);
    AncRoot(t.ids[q], t.depth);
    MeetLevelIsFirst(t.ids[r], t.ids[q], t.depth);
  }

  /** From the leaf key of a member of the tree an update leaves, what the update wrote at and
      above the node where the two paths meet can be derived. */
  lemma MemberDerives(h: History, a: Digest, q: MemberId, k: nat, held: iset<Secret>)
    requires Valid(h) && a in h.events && h.events[a].op.Update? && q in Post(h, a).ids
    requires LeafSecret(Post(h, a), q) in held && MeetLevel(Post(h, a).ids[q], h.events[a].op.change.leafIdx) <= k
    ensures Derivable(held, Published(h), RatchetN(Fresh(h.events[a].seed), k))
  {
    hide Valid, Represents, Derivable, Published, Run, MeetLevel, Post, PkAt;
    var sk, depth, i := Fresh(h.events[a].seed), |h.events[a].op.change.path|, Post(h, a).ids[q];
    PostLeaves(h, a);
    if k <= depth {
      BelowDerives(h, a, i, k, held);
    } else {
      MeetInTree(Post(h, a), q, h.events[a].op.memberId);
      BelowDerives(h, a, i, depth, held);
      RatchetNDerivable(held, Published(h), RatchetN(sk, depth), k - depth);
      RatchetAdds(sk, depth, k - depth);
    }
  }

  // ----- Who can derive what an update wrote -----

  /** The held secret is the leaf key of a member below the node `k` levels above the updater's
      leaf, in the tree that update `a` left. */
  ghost predicate LeafHeldBelow(h: History, a: Digest, k: nat, held: iset<Secret>)
    requires Valid(h) && a in h.events && h.events[a].op.Update?
  {
    var t := Post(h, a);
    exists q :: q in t.ids && LeafSecret(t, q) in held && MeetLevel(t.ids[q], h.events[a].op.change.leafIdx) <= k
  }

  /** The seeds of the fresh secrets held. */
  ghost function FreshSeeds(held: iset<Secret>): iset<nat> {
    iset x | Fresh(x) in held
  }

  /** Main result: holding secrets that members generated and others learned from those, and
      seeing everything published, an intruder can derive what an update wrote at a node
      exactly when it holds the key of a leaf below the node in the tree the update left. */
  lemma SecretIff(h: History, own: Owners, a: Digest, k: nat, held: iset<Secret>)
    requires Valid(h) && AllGuarded(h, own) && a in h.events && h.events[a].op.Update?
    requires OnlyKept(own, FreshSeeds(held)) && held <= Knowledge(h, FreshSeeds(held))
    ensures Derivable(held, Published(h), RatchetN(Fresh(h.events[a].seed), k)) <==> LeafHeldBelow(h, a, k, held)
  {
    hide Valid, AllGuarded, Derivable, Published, Run, MeetLevel, Post, PkAt, Represents, RatchetN, OnlyKept, MayKnow;
    var s, leaked := RatchetN(Fresh(h.events[a].seed), k), FreshSeeds(held);
    if Derivable(held, Published(h), s) {
      KnowledgeIsTight(h, own, leaked);
      DerivedStaysInside(held, Published(h), Knowledge(h, leaked), s);
      var q := UpdateHolder(h, leaked, a, k);
      CreatorRepresents(h, a);
      var d := LeafIsFresh(h, UpTo(h, a), Post(h, a), q);
    }
    if LeafHeldBelow(h, a, k, held) {
      var t := Post(h, a);
      var q :| q in t.ids && LeafSecret(t, q) in held && MeetLevel(t.ids[q], h.events[a].op.change.leafIdx) <= k;
      MemberDerives(h, a, q, k, held);
    }
  }

  // ----- Members -----

  /** What the members of a circle generated themselves. */
  ghost function OwnSecrets(own: Owners, who: iset<MemberId>): iset<Secret> {
    iset s | own(Seed(s)).Some? && own(Seed(s)).value in who
  }

  /** From their own secrets and everything published, a circle of members can derive the root
      secret of an update exactly when one of them was in the tree it was made on. */
  lemma RootSecretIff(h: History, own: Owners, a: Digest, who: iset<MemberId>)
    requires Valid(h) && AllGuarded(h, own) && a in h.events && h.events[a].op.Update?
    ensures Known(h, h.events[a].order)
    ensures Derivable(OwnSecrets(own, who), Published(h), RootSecretOf(h, a)) <==>
            exists q :: q in who && q in Run(h, h.events[a].order).ids
  {
    hide Valid, AllGuarded, Derivable, Published, Run, Represents, RatchetN, WF, Post;
    var held, t := OwnSecrets(own, who), Post(h, a);
    PostLeaves(h, a);
    CreatorRepresents(h, a);
    forall s | s in held
      ensures MayKnow(h, FreshSeeds(held), s)
    {
      SeedIsKnown(h, FreshSeeds(held), s);
    }
    SecretIff(h, own, a, |h.events[a].op.change.path|, held);
    forall q | q in t.ids
      ensures MeetLevel(t.ids[q], h.events[a].op.change.leafIdx) <= t.depth && (LeafSecret(t, q) in held <==> q in who)
    {
      MeetInTree(t, q, h.events[a].op.memberId);
      LeafIsOwn(h, own, UpTo(h, a), t, q);
    }
  }

  /** The leaf of every member, in every replica's tree, has a key of the member's own. */
  lemma LeafIsOwn(h: History, own: Owners, ds: set<Digest>, t: Tree, q: MemberId)
    requires Valid(h) && AllGuarded(h, own) && Closed(h, ds) && Represents(h, ds, t) && q in t.ids
    ensures Linked(t) && own(Seed(LeafSecret(t, q))) == Some(q)
  {
    hide Valid, AllGuarded, Run, Represents, EncryptedChange;
    var d := LeafIsFresh(h, ds, t, q);
    GuardedAt(h, own, d);
  }

  // ----- Removed members -----

  lemma StepIds(t: Tree, op: Op, r: MemberId)
    requires Linked(t) && r in Step(t, op).ids
    ensures r in t.ids || (op.Add? && op.addedId == r)
  {
    if op.Update? {
      UpdateKeepsShape(t, op.change);
    }
  }

  /** A member removed, and not added again since, is not in the tree. */
  lemma {:induction false} RemovedIsGone(h: History, order: seq<Digest>, m: Digest)
    requires Valid(h) && Causal(h, order) && m in order && h.events[m].op.Remove?
    requires forall d :: d in order && h.events[d].op.Add? && h.events[d].op.addedId == h.events[m].op.id ==>
               d in Past(h, m)
    ensures h.events[m].op.id !in Run(h, order).ids
    decreases |order|
  {
    var r := h.events[m].op.id;
    hide Valid, Run, Represents, Step, Causal, CreatedFrom;
    if |order| <= 1 {
      OnlyRoot(h, order);
      RootFacts(h);
    } else {
      LastIsReady(h, order);
      RunLast(h, order);
      var init, b := order[..|order| - 1], order[|order| - 1];
      if b == m {
        RemovedAtOnce(h, init, m);
      } else {
        assert order == init + [b];
        RemovedIsGone(h, init, m);
        if r in Run(h, order).ids {
          StepIds(Run(h, init), h.events[b].op, r);
          PastBefore(h, init, m, b);
        }
      }
    }
  }

  lemma RunLast(h: History, order: seq<Digest>)
    requires Known(h, order) && order != []
    ensures Known(h, order[..|order| - 1])
    ensures Run(h, order) == Step(Run(h, order[..|order| - 1]), h.events[order[|order| - 1]].op)
  {}

  lemma PastBefore(h: History, init: seq<Digest>, m: Digest, b: Digest)
    requires Causal(h, init) && m in init && b in Past(h, m)
    ensures b in init
  {
    CausalIsClosed(h, init);
    assert m in ToSet(init);
  }

  lemma RemovedAtOnce(h: History, init: seq<Digest>, m: Digest)
    requires Valid(h) && Causal(h, init) && Known(h, init) && Ready(h, ToSet(init), m) && m != h.root
    requires Causal(h, h.events[m].order) && Known(h, h.events[m].order) && h.events[m].op.Remove?
    requires Closed(h, ToSet(init) + {m})
    ensures h.events[m].op.id !in Step(Run(h, init), h.events[m].op).ids
  {
    hide Valid, Run, Represents, Causal, MemberEffect, WF;
    RunRepresents(h, init);
    RunRepresents(h, h.events[m].order);
    var u := Run(h, h.events[m].order);
    MemberFits(h, ToSet(init), Run(h, init), m, u);
    RemovalIsValid(h, m);
  }

  lemma RemovalIsValid(h: History, m: Digest)
    requires Valid(h) && m in h.events && h.events[m].op.Remove?
    ensures Known(h, h.events[m].order) && h.events[m].op.id !in Post(h, m).ids
  {
    hide Run;
    assert ValidEvent(h, m);
  }

  /** The member was removed before the update was made, and not added again by then. */
  ghost predicate RemovedBy(h: History, a: Digest, r: MemberId, m: Digest)
    requires a in h.events
  {
    && m in h.events && m in Past(h, a) && h.events[m].op.Remove? && h.events[m].op.id == r
    && forall d :: d in h.events && d in Past(h, a) && h.events[d].op.Add? && h.events[d].op.addedId == r ==>
         d in Past(h, m)
  }

  ghost predicate AllRemoved(h: History, a: Digest, who: iset<MemberId>)
    requires a in h.events
  {
    forall r :: r in who ==> exists m :: RemovedBy(h, a, r, m)
  }

  lemma RemovedNotInTree(h: History, a: Digest, r: MemberId, m: Digest)
    requires Valid(h) && a in h.events && h.events[a].op.Update? && RemovedBy(h, a, r, m)
    ensures r !in Post(h, a).ids
  {
    hide Valid, Run, Causal, Post;
    UpdateFacts(h, a);
    PastIsKnown(h, a);
    PostLeaves(h, a);
    RemovedIsGone(h, h.events[a].order, m);
  }

  /** Removed members, pooling their own secrets and what they learned from them, cannot derive
      any secret that an update made after their removal wrote. */
  lemma RemovedLearnNothing(h: History, own: Owners, a: Digest, k: nat, who: iset<MemberId>, held: iset<Secret>)
    requires Valid(h) && AllGuarded(h, own) && a in h.events && h.events[a].op.Update? && AllRemoved(h, a, who)
    requires held <= Knowledge(h, FreshSeeds(held))
    requires forall x :: x in FreshSeeds(held) ==> own(x).Some? && own(x).value in who
    ensures !Derivable(held, Published(h), RatchetN(Fresh(h.events[a].seed), k))
  {
    hide Valid, AllGuarded, Derivable, Published, Run, Post, MeetLevel, RatchetN, Represents, Knowledge, RemovedBy;
    SecretIff(h, own, a, k, held);
    var t := Post(h, a);
    CreatorRepresents(h, a);
    forall q | q in t.ids
      ensures LeafSecret(t, q) !in held
    {
      LeafIsOwn(h, own, UpTo(h, a), t, q);
      var d := LeafIsFresh(h, UpTo(h, a), t, q);
      if q in who {
        var m :| RemovedBy(h, a, q, m);
        RemovedNotInTree(h, a, q, m);
      }
    }
  }
}
