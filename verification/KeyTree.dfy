/** The BeeKEM key tree as a value, and what each operation of `tree.rs` computes on it.

    Class BeeKem keeps the vectors of the code and is proved against these functions. */
module KeyTree {
  import opened Seqs
  import opened Results
  import opened Nodes
  import opened Crypto
  import opened NodeKeys

  type MemberId = nat

  datatype LeafNode = LeafNode(id: MemberId, pk: NodeKey)

  /** Blank leaves and blank inner nodes are absent from the maps. */
  datatype Tree = Tree(
    depth: nat,
    nextLeaf: nat,
    leaves: map<nat, LeafNode>,
    inner: map<Node, Store>,
    ids: map<MemberId, nat>,
    encrypter: Option<nat>)

  datatype PathChange = PathChange(
    leafId: MemberId,
    leafIdx: nat,
    leafPk: NodeKey,
    path: seq<(Node, Store)>,
    removed: seq<ShareKey>)

  function Range(lo: nat, hi: nat): (r: set<nat>)
    ensures forall j :: j in r <==> lo <= j < hi
    decreases hi - lo
  {
    if lo >= hi then {} else {lo} + Range(lo + 1, hi)
  }

  // ----- Blanking, adding and removing -----

  /** The inner nodes that are not above any of the given leaves. */
  function Blanked(inner: map<Node, Store>, touched: set<nat>): map<Node, Store> {
    map n | n in inner && (forall j :: j in touched ==> !Under(j, n)) :: inner[n]
  }

  function BlankPath(t: Tree, i: nat): Tree {
    t.(inner := Blanked(t.inner, {i}), encrypter := None)
  }

  function EmptyTree(): Tree {
    Tree(1, 0, map[], map[], map[], None)
  }

  /** `push_leaf`, with the doubling of `maybe_grow_tree`. */
  function PushLeaf(t: Tree, id: MemberId, pk: NodeKey): Tree {
    var l := t.nextLeaf;
    BlankPath(
      t.(depth := if l < Pow2(t.depth) then t.depth else t.depth + 1,
         nextLeaf := l + 1,
         leaves := t.leaves[l := LeafNode(id, pk)],
         ids := t.ids[id := l]),
      l)
  }

  function NewTree(id: MemberId, pk: ShareKey): Tree {
    PushLeaf(EmptyTree(), id, Single(pk))
  }

  /** The next free slot once blank leaves at the right edge are collected. */
  function Trim(leaves: map<nat, LeafNode>, n: nat): (m: nat)
    ensures m <= n
    ensures forall j :: m <= j < n ==> j !in leaves
    ensures m == 0 || m - 1 in leaves
  {
    if n == 0 || n - 1 in leaves then n else Trim(leaves, n - 1)
  }

  /** Leaves whose paths `remove_id` blanks: the removed one and the collected tombstones. */
  function RemovedLeaves(t: Tree, l: nat): set<nat> {
    {l} + Range(Trim(t.leaves - {l}, t.nextLeaf), t.nextLeaf)
  }

  function RemoveLeaf(t: Tree, id: MemberId): Tree
    requires id in t.ids
  {
    var l := t.ids[id];
    t.(nextLeaf := Trim(t.leaves - {l}, t.nextLeaf),
       leaves := t.leaves - {l},
       inner := Blanked(t.inner, RemovedLeaves(t, l)),
       ids := t.ids - {id},
       encrypter := None)
  }

  /** `remove_id`. */
  function RemoveId(t: Tree, id: MemberId): Result<Tree> {
    if |t.ids| == 1 then Err(RemoveLastMember)
    else if id !in t.ids then Err(IdentifierNotFound)
    else Ok(RemoveLeaf(t, id))
  }

  /** Public keys at levels 1 to `k` above leaf `i`, from the bottom up. */
  function PathKeys(t: Tree, i: nat, k: nat): seq<ShareKey> {
    if k == 0 then []
    else PathKeys(t, i, k - 1)
         + (var n := Anc(i, k); if n in t.inner then Keys(StoreKey(t.inner[n])) else [])
  }

  // ----- Resolution -----

  /** Blank or conflicted: passed over when resolving a node. */
  predicate Skip(t: Tree, n: Node) {
    if n.level == 0 then n.pos !in t.leaves
    else n !in t.inner || HasConflict(t.inner[n])
  }

  function KeyAt(t: Tree, n: Node): NodeKey
    requires !Skip(t, n)
  {
    if n.level == 0 then t.leaves[n.pos].pk else StoreKey(t.inner[n])
  }

  /** The key to pair with at a resolved node; a resolved node has exactly one. */
  function PkAt(t: Tree, n: Node): ShareKey
    requires !Skip(t, n)
  {
    Keys(KeyAt(t, n))[0]
  }

  /** `append_resolution`: the highest non-blank, non-conflict nodes at or below `n`. */
  function Resolution(t: Tree, n: Node): (r: seq<Node>)
    ensures forall u :: u in r ==> !Skip(t, u)
    decreases n.level
  {
    if !Skip(t, n) then [n]
    else if n.level == 0 then []
    else Resolution(t, Left(n)) + Resolution(t, Right(n))
  }

  predicate HasRootKey(t: Tree) {
    !Skip(t, Root(t.depth)) && t.depth > 0
  }

  // ----- Encrypting a path -----

  /** No leaf in the resolution holds conflicting keys. */
  predicate ResolvesToSingles(t: Tree, m: Node) {
    forall n :: n in Resolution(t, m) && n.level == 0 ==> t.leaves[n.pos].pk.Single?
  }

  /** What `encrypt_path` demands of the tree: it panics on a leaf with conflicting keys in
      the resolution of a sibling on the path. */
  predicate CanEncrypt(t: Tree, i: nat) {
    forall k | 0 <= k < t.depth :: ResolvesToSingles(t, Sibling(Anc(i, k)))
  }

  /** The entries of a new store for the parent of `child`. */
  function NewEntries(t: Tree, child: Node, childSk: Secret, paired: Secret): map<Node, EncryptedSecret> {
    var parentSk := Ratcheted(childSk);
    var res := Resolution(t, Sibling(child));
    if res == [] then map[child := EncryptSecret(parentSk, childSk, ShareKey(paired))]
    else (map n | n in res :: EncryptSecret(parentSk, childSk, PkAt(t, n)))
         [child := EncryptSecret(parentSk, childSk, PkAt(t, res[0]))]
  }

  /** `encrypt_new_secret_store_for_parent`. */
  function NewStore(t: Tree, child: Node, childSk: Secret, paired: Secret): Store {
    SecretStore([Version(ShareKey(Ratcheted(childSk)), NewEntries(t, child, childSk, paired), ShareKey(childSk))])
  }

  /** The new store `j + 1` levels above leaf `i`. It is sealed for the resolution of a
      sibling off the path, so it can be computed from the tree before the update;
      `draw(j)` is the throwaway secret generated when that resolution is empty. */
  function PathStore(t: Tree, i: nat, sk: Secret, draw: nat -> Secret, j: nat): (Node, Store) {
    (Anc(i, j + 1), NewStore(t, Anc(i, j), RatchetN(sk, j), draw(j)))
  }

  function NewPath(t: Tree, i: nat, sk: Secret, draw: nat -> Secret, k: nat): (p: seq<(Node, Store)>)
    ensures |p| == k
    ensures forall j :: 0 <= j < k ==> p[j] == PathStore(t, i, sk, draw, j)
  {
    if k == 0 then [] else NewPath(t, i, sk, draw, k - 1) + [PathStore(t, i, sk, draw, k - 1)]
  }

  /** Write the stores of a path, replacing what was there. */
  function Overwrite(inner: map<Node, Store>, path: seq<(Node, Store)>): map<Node, Store> {
    if path == [] then inner
    else var last := path[|path| - 1];
         Overwrite(inner, path[..|path| - 1])[last.0 := last.1]
  }

  /** The change emitted by `encrypt_path`. */
  function EncryptedChange(t: Tree, id: MemberId, sk: Secret, draw: nat -> Secret): PathChange
    requires id in t.ids && t.ids[id] in t.leaves
  {
    var i := t.ids[id];
    PathChange(id, i, Single(ShareKey(sk)), NewPath(t, i, sk, draw, t.depth),
               Keys(t.leaves[i].pk) + PathKeys(t, i, t.depth))
  }

  /** The sender's tree after `encrypt_path`. */
  function EncryptedTree(t: Tree, id: MemberId, sk: Secret, draw: nat -> Secret): Tree
    requires id in t.ids && t.ids[id] in t.leaves
  {
    var i := t.ids[id];
    t.(leaves := t.leaves[i := LeafNode(id, Single(ShareKey(sk)))],
       inner := Overwrite(t.inner, NewPath(t, i, sk, draw, t.depth)),
       encrypter := Some(i))
  }

  // ----- Applying a path -----

  function MergeAt(inner: map<Node, Store>, n: Node, s: Store, removed: set<ShareKey>): Store {
    if n in inner then MergeStore(inner[n], s, removed) else s
  }

  function MergePath(inner: map<Node, Store>, path: seq<(Node, Store)>, removed: set<ShareKey>): map<Node, Store> {
    if path == [] then inner
    else var last := path[|path| - 1];
         var rest := MergePath(inner, path[..|path| - 1], removed);
         rest[last.0 := MergeAt(rest, last.0, last.1, removed)]
  }

  /** `is_valid_path`: same leaf, same path length. */
  predicate ValidPath(t: Tree, c: PathChange)
    requires c.leafId in t.ids
  {
    |c.path| == t.depth && t.ids[c.leafId] == c.leafIdx
  }

  function MergedLeaf(t: Tree, i: nat, c: PathChange): LeafNode
    requires i in t.leaves
  {
    LeafNode(c.leafId, MergeKey(t.leaves[i].pk, c.leafPk, ToSet(c.removed)))
  }

  /** The change is a member's, and names a leaf outside the tree: checking the length of
      its path, the code walks up from that leaf and never meets the root. */
  predicate Strays(t: Tree, c: PathChange) {
    c.leafId in t.ids && c.leafIdx >= Pow2(t.depth)
  }

  /** The path is merged as it is, and names a node outside the tree. */
  predicate Oversteps(t: Tree, c: PathChange) {
    c.leafId in t.ids && ValidPath(t, c) && exists k :: 0 <= k < |c.path| && !Inner(c.path[k].0, t.depth)
  }

  /** What stops `apply_path`, if anything. */
  function PathStop(t: Tree, c: PathChange): Option<CgkaError> {
    if Strays(t, c) then Some(ShiftOverflow) else if Oversteps(t, c) then Some(IndexOutOfBounds) else None
  }

  /** `apply_path`, when nothing stops it. */
  function ApplyPath(t: Tree, c: PathChange): Tree
    requires c.leafId in t.ids ==> t.ids[c.leafId] in t.leaves
  {
    if c.leafId !in t.ids then t
    else
      var i := t.ids[c.leafId];
      var t1 := t.(leaves := t.leaves[i := MergedLeaf(t, i, c)]);
      if !ValidPath(t, c) then BlankPath(t1, i)
      else
        var t2 := t1.(inner := MergePath(t.inner, c.path, ToSet(c.removed)));
        t2.(encrypter := if HasRootKey(t2) then Some(i) else None)
  }

  // ----- Decrypting -----

  /** The secret of a resolved parent, from the key map or from its store. */
  function Opened(t: Tree, p: Node, key: NodeKey, seen: seq<Node>, sks: ShareKeyMap): Result<Secret>
    requires p.level > 0 && !Skip(t, p)
  {
    var pk := PkAt(t, p);
    if pk in sks then Ok(sks[pk]) else DecryptStore(t.inner[p], key, sks, seen)
  }

  /** The walk of `decrypt_tree_secret` from the ancestor of leaf `i` at level `k`. */
  function Climb(t: Tree, i: nat, k: nat, key: NodeKey, seen: seq<Node>, sks: ShareKeyMap, lca: Node,
                 last: Option<Secret>): (Result<Secret>, ShareKeyMap)
    requires k <= t.depth && HasRootKey(t) && Anc(i, t.depth) == Root(t.depth)
    decreases t.depth - k
  {
    if k == t.depth then
      (if last.Some? then Ok(last.value) else Err(NoRootKey), sks)
    else
      var p := Anc(i, k + 1);
      if Skip(t, p) then Climb(t, i, k + 1, key, seen, sks, lca, last)
      else
        match Opened(t, p, key, seen, sks)
        case Err(e) => (Err(e), sks)
        case Ok(s) =>
          var sks' := sks[PkAt(t, p) := s];
          if p == lca then (Ok(RatchetN(s, t.depth - (k + 1))), sks')
          else Climb(t, i, k + 1, KeyAt(t, p), seen + [p], sks', lca, Some(s))
  }

  /** `decrypt_tree_secret`: the root secret, and the keys learned on the way. */
  function DecryptTreeSecret(t: Tree, id: MemberId, sks: ShareKeyMap): (Result<Secret>, ShareKeyMap)
    requires id in t.ids ==> t.ids[id] in t.leaves && t.ids[id] < Pow2(t.depth)
    requires HasRootKey(t) ==> t.encrypter.Some?
  {
    if id !in t.ids then (Err(IdentifierNotFound), sks)
    else if !HasRootKey(t) then (Err(NoRootKey), sks)
    else
      var i := t.ids[id];
      var key := t.leaves[i].pk;
      var e := t.encrypter.value;
      if e == i then
        if key.Single? && key.pk in sks then (Ok(RatchetN(sks[key.pk], t.depth)), sks)
        else (Err(ShareKeyNotFound), sks)
      else
        AncRoot(i, t.depth);
        Climb(t, i, 0, key, [Leaf(i)], sks, Anc(i, MeetLevel(i, e)), None)
  }
}
