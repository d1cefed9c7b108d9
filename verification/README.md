# BeeKEM in Dafny

A model of BeeKEM, the concurrent variant of TreeKEM in `keyhive/beekem`, and of two loops of
`keyhive/keyhive_core/src/keyhive.rs`, with proofs.

BeeKEM keeps the members of a group at the leaves of a binary tree. A member re-keys the path
from its leaf to the root and seals each new secret for the other side of the tree; the others
merge the path and climb to the root secret. Operations form a causal graph. A replica applies
concurrent updates when they arrive, defers concurrent membership changes, and rebuilds the tree
from the sorted graph when it must.

The results build up as follows.

1. **Indices.** `TreeMath` proves that the bit arithmetic on `u32` indices is a real tree without
   overflow. Everything else names nodes by level and position (`Nodes`).
2. **The tree.** `KeyTree` says what each operation of `tree.rs` computes; class `BeeKem` does it in
   place on two vectors and is proved against it. One update keeps every node readable for every
   member, a readable tree decrypts to the encrypter's root secret, and sender and receivers end up
   with the same tree.
3. **Histories.** A history records every operation with the order its creator had applied earlier
   ones, so it covers every distributed run. The main induction (`Convergence.RunRepresents`) shows
   that whatever causal order a replica used, each node holds exactly the versions of the causally
   maximal updates through it. Convergence, the root chain, key agreement and recovery follow.
   `GroupSecrecy` is the other side of agreement: an intruder who sees every ciphertext and has got hold
   of any secrets that members generated can derive what an update wrote at a node exactly when it has
   the key of a leaf below that node in the tree the update left.
4. **The graph.** `CgkaOperationGraph` keeps heads and predecessors and sorts operations into epochs;
   the loops are proved equal to a definition by causal cuts, which is proved exact.
5. **The replica.** Class `Cgka` is the state machine of `cgka.rs`. Its invariant, over all runs
   including concurrent membership changes, is that an unset pending flag means the tree reflects
   every operation in the graph and a set flag means at least two heads. `EpochOutcomes` says exactly
   when a replay succeeds, `KeyOffers` exactly when a key is offered. `Failures`, `StrayUpdates`,
   `LateUpdates`, `DoubleAdds` and `StaleAnswers` show how concurrent membership changes break the group,
   each by steps replicas can take from any state with one head.
6. **The group.** `Network` puts replicas into one transition system whose steps are the relations
   class `Cgka` implements. In every reachable state replicas with the same operations agree, the
   eager tree equals the replayed one, and every key offered is the one the author of the head
   update got. `RunSecrecy` shows what can be made of everything some replicas hold at one time and
   everything published until a later time: removed members learn nothing, and once the members in
   question have new leaf keys a leak is of no more use.

Cryptography is symbolic (`Crypto`): fresh secrets are distinct, the ratchet has no collisions,
two pairs derive the same key exactly with the same two secrets, and a ciphertext opens with its own
key only. Digests are injective ids.
Random draws, digests of new operations and the order of hash maps are parameters or arbitrary
choices.

Assumptions the code relies on, stated where they are used: every operation except the initial add
has a predecessor; an add names add-predecessors from its own past; `push_leaf` gets an absent id
(well-formedness only); in a history, one member's own updates are causally ordered; for secrecy, a
member's keys are generated by that member and the pairs drawn only for sealing are not kept; fewer
than 2^30 leaves. The model is of a build with debug assertions and overflow checks. A call that stops such a
program instead of returning is an error value: `AssertionFailed`, `ConflictingLeaf`,
`IndexOutOfBounds`, `ShiftOverflow`.

The model follows the code where it differs from its comments, and where its behaviour may surprise:

- Merging a store appends the new versions (`secret_store.rs:86-89`), so versions are not kept in key
  order as the comment at line 20 says. Equality of trees is up to the order of versions in a store.
- The comment at `tree.rs:38-40` says that a passive adversary needs all the historical secret keys at
  one of the leaves to read the latest root secret after a merge. What it needs, when only updates are
  concurrent, is the current key of one leaf, and no more (`GroupSecrecy.SecretIff`).
- `pop_all` does not sort (`topsort.rs:48`); its caller does.
- A replay stops at the first operation that fails. That every replay succeeds is proved when only
  updates are concurrent (`HistoryGraph.ReplayIsRun`); it is false in general. It succeeds if and only if
  the roster of members and slots, without any keys, gets through all epochs
  (`EpochOutcomes.ReplaySucceedsIff`).
- Two members who remove the same member without having seen each other's removal break every replay
  of the graph (`Failures.ConcurrentRemovesFail`). A replica that receives the other's removal can no
  longer add, remove or update, and nothing else it may receive helps but an add of that member
  (`Failures.RemovalsArise`, `Failures.StuckReplicaFails`, `Failures.StuckStays`).
- To check a received path, the code walks up from the leaf index in it (`tree.rs:607-614`). From a
  leaf outside the tree the walk passes the root by: the shift at `treemath.rs:344` overflows, or, where
  overflow is not checked, the loop does not end. A removal from the last slot of a full tree, concurrent
  with an add whose newcomer updates, makes this happen if and only if the removal's digest is below the
  add's (`StrayUpdates.OvertakenOutcome`, `StrayUpdates.OvertakenRun`).
- A leaf with conflicting keys in the resolution of a sibling stops an update at `tree.rs:499`. A member
  removed and added back, who meanwhile updated twice, gets such a leaf if and only if the add's digest is
  below the second update's; nobody else can update then (`LateUpdates.ReaddedOutcome`,
  `LateUpdates.ReaddedRun`).
- Two replicas may add the same member. The member then has two leaves, ids and leaves are no longer
  inverse, and removing the member leaves one of them, for which updates go on sealing secrets
  (`Replay.StaysTidyIff`, `DoubleAdds.DoubleAddRun`).
- `add` and `remove` look for the member before they replay (`cgka.rs:235-241`). A member whose add is
  outstanding is added a second time and cannot be removed; one whose removal is outstanding is not
  added, and removing it fails (`StaleAnswers.StaleAddRun`, `StaleAnswers.StaleRemoveRun`).
- A key is offered only while no two adds are unseen by every add (`cgka.rs:224`). After two concurrent
  adds, an update that follows both gives the tree a root key, but none is offered until somebody adds
  again (`KeyOffers.KeyOfferedIff`, `KeyOffers.HiddenKeyRun`).
- That removed slots are blank is a debug assertion (`tree.rs:122`). It is a precondition of
  the sort, and its failure ends a replay. Where debug assertions are off, the code blanks an occupied
  slot and goes on; the model does not follow it there.
- When ingestion accepts everything, the old list of pending events is left in place
  (`keyhive.rs:2225-2228`). Those events were accepted or dropped, so a later call is not affected.

## Model

| member | source | states |
|---|---|---|
| TreeMath.IndexRoundTrip | keyhive/beekem/src/treemath.rs:183-198 | the in-order layout is a bijection between nodes and indices, and the level is the number of trailing one bits |
| TreeMath.NodeRoundTrip | keyhive/beekem/src/treemath.rs:183-198 | every index is the index of a node |
| TreeMath.SlotIsNode | keyhive/beekem/src/treemath.rs:100-122 | every slot of the inner-node vector belongs to an inner node of the tree |
| TreeMath.ParentIsParent | keyhive/beekem/src/treemath.rs:341-347 | the bits of `parent` give the index of the parent node |
| TreeMath.ChildrenAreChildren | keyhive/beekem/src/treemath.rs:323-337 | the bits of `left` and `right` give the indices of the children |
| TreeMath.SiblingIsSibling | keyhive/beekem/src/treemath.rs:355-362 | comparing an index with its parent's picks the other child |
| TreeMath.BitLaws | keyhive/beekem/src/treemath.rs:323-362 | on all indices: `left` and `right` invert `parent`, `sibling` is an involution without fixed points, siblings share a parent |
| TreeMath.ComputeLevel | keyhive/beekem/src/treemath.rs:305-315 | the loop counts trailing ones and never shifts by 32 |
| TreeMath.ComputeLog2 | keyhive/beekem/src/treemath.rs:294-303 | the loop finds the highest set bit without over-shifting below 2^31 |
| TreeMath.FromLeafCount | keyhive/beekem/src/treemath.rs:219-227 | no overflow below 2^30 leaves, and the size is at most that of a tree exactly when the leaf fits in it |
| TreeMath.LeafCountTooLarge | keyhive/beekem/src/treemath.rs:219-227 | from 2^30 leaves on the doubling overflows or the shift does |
| TreeMath.IncDoubles | keyhive/beekem/src/treemath.rs:230-255 | `inc` doubles the leaves, and the leaf and inner-node counts are those of a complete tree |
| TreeMath.ComputeRoot | keyhive/beekem/src/treemath.rs:317-321 | the root index of a tree up to depth 30 |
| TreeMath.ComputeParent | keyhive/beekem/src/treemath.rs:341-347 | every intermediate value is a `u32`, and the slot of the parent is inside the vector |
| TreeMath.ComputeChildren | keyhive/beekem/src/treemath.rs:323-337 | both children without overflow |
| TreeMath.ComputeSibling | keyhive/beekem/src/treemath.rs:355-362 | the sibling without overflow |
| TreeMath.DirectPath | keyhive/beekem/src/treemath.rs:366-377 | from a node in the tree, the path lists each ancestor once from the bottom, ends at the root, has the level difference as length and stays in bounds; from any other node the loop runs into a shift by 32 |
| TreeMath.NeverMeetsRoot | keyhive/beekem/src/treemath.rs:366-377 | however long the walk from a leaf outside the tree, it never meets the root |
| TreeMath.LowestCommonAncestor | keyhive/beekem/src/treemath.rs:381-399 | for distinct leaves, the first node their paths share |
| Nodes.MeetLevelIsFirst | keyhive/beekem/src/treemath.rs:379-399 | two leaves have a common ancestor at a level exactly from their meeting level on |
| Crypto.RatchetInjective | keyhive/keyhive_crypto/src/share_key.rs:147-154 | secrets ratcheted from distinct fresh secrets never meet |
| Crypto.RatchetAdds | keyhive/keyhive_crypto/src/share_key.rs:147-154 | ratcheting a steps and then b steps is ratcheting a + b steps |
| Crypto.DiffieHellmanCommutes | keyhive/keyhive_crypto/src/share_key.rs:135-145 | both ends derive the same symmetric key |
| Crypto.SameKeyIff | keyhive/keyhive_crypto/src/share_key.rs:135-145 | two pairs of a secret and a public key derive the same symmetric key if and only if they have the same two secrets at their ends |
| Crypto.OpensWithOwnKeyOnly | keyhive/beekem/src/tree.rs:488-509 | a sealed secret opens with the key of either end and with no other |
| NodeKeys.MergeKeyMeans | keyhive/beekem/src/keys.rs:164-219 | a merged node key holds every new key and every old key not removed, each as often as before, in sorted order for a single new key |
| NodeKeys.KeepVersionsMeans | keyhive/beekem/src/secret_store.rs:86-102 | exactly the versions whose key was removed are dropped |
| NodeKeys.EntryDecrypts | keyhive/beekem/src/secret_store.rs:119-159 | whoever holds the sealing or the paired key decrypts an entry it is listed for to the sealed secret |
| NodeKeys.DecryptVersionMeans | keyhive/beekem/src/secret_store.rs:119-159 | of the nodes seen on the way up, the last with an entry counts; it opens if and only if the sealing key, for its holder, or else the paired key is held and derives the entry's key; otherwise each error |
| PathUpdate.OverwriteMeans | keyhive/beekem/src/tree.rs:300-325 | writing a path sets exactly the nodes above the leaf |
| PathUpdate.MergeMeans | keyhive/beekem/src/tree.rs:358-369 | merging a path merges exactly the nodes above the leaf and touches no other |
| PathUpdate.NewPathIsKeyed | keyhive/beekem/src/tree.rs:293-325 | after an update every node on the path has one version, the leaf secret ratcheted once per level |
| PathUpdate.SenderReceiverAgree | keyhive/beekem/src/tree.rs:275-376 | applying the emitted change to the tree it was made from gives exactly the sender's tree, with conflict nodes or a conflict leaf key on the path |
| Agreement.TopIsResolved | keyhive/beekem/src/tree.rs:641-652 | the highest resolved node above a member is in the resolution of every node it passes |
| Agreement.UpdateOpens | keyhive/beekem/src/tree.rs:465-516 | every member below a node of a fresh path can open it, whatever blank and conflict nodes lie between |
| Agreement.UpdateStaysReadable | keyhive/beekem/src/tree.rs:275-328 | a member who can read every resolved node above it still can after anyone's update |
| Agreement.DecryptsToRoot | keyhive/beekem/src/tree.rs:202-259 | a member who can read the tree decrypts exactly the encrypter's leaf secret ratcheted to the root |
| WellFormed.PushLeafAdds | keyhive/beekem/src/tree.rs:152-160 | an add sets the new slot and id and nothing else, doubles a full tree, and blanks exactly the nodes above the new slot |
| WellFormed.RemoveLeafRemoves | keyhive/beekem/src/tree.rs:164-183 | a removal clears the slot and id and nothing else, the next free slot follows the last member, and exactly the nodes above the cleared slot or above a slot given up are blanked |
| WellFormed.PushLeafWF | keyhive/beekem/src/tree.rs:152-160 | adding an absent id keeps the tree well formed, with at most one doubling |
| WellFormed.RemoveLeafWF | keyhive/beekem/src/tree.rs:164-183 | removing one of several members keeps the tree well formed, and tombstone collection stops above slot zero |
| Replay.OpKeepsWF | keyhive/beekem/src/cgka.rs:398-415 | every operation that applies keeps the tree well formed: an add of an absent id, a removal, an update whose path climbs from its leaf, valid or outdated |
| WellFormed.EncryptedTreeWF | keyhive/beekem/src/tree.rs:275-328 | an own update keeps the tree well formed |
| Replay.StaysTidyIff | keyhive/beekem/src/tree.rs:113-183 | in any run of adds, removals, updates and sorts, ids and leaves are inverse all along if and only if nobody is added while present |
| Replay.RunStepsWF | keyhive/beekem/src/tree.rs:113-183 | while that holds and paths climb from their own leaves, every tree reached is well formed: ids and leaves inverse, free slots blank, inner nodes inhabited, an encrypter exactly with a root key |
| Resolutions.ResolutionCovers | keyhive/beekem/src/tree.rs:641-652 | a resolution lists disjoint nodes from left to right, none blank or in conflict, and covers each member below exactly once |
| Resolutions.ResolutionCount | keyhive/beekem/src/tree.rs:641-652 | a resolution is no longer than the number of members below |
| Resolutions.UpdateCost | keyhive/beekem/src/tree.rs:300-325 | an update seals at least one secret per level and at most the path length plus the number of other members |
| Resolutions.ExactCost | keyhive/beekem/src/tree.rs:478-513 | it seals exactly the path length if and only if no resolution off the path has more than one node |
| Resolutions.CanEncryptIff | keyhive/beekem/src/tree.rs:494-501 | no leaf met while sealing has conflicting keys if and only if every such leaf has a resolved node above it that is not above the encrypter |
| Resolutions.NewStoreSealed | keyhive/beekem/src/tree.rs:465-516 | a new store has an entry for the child and for each node the sibling resolves to and for nobody else, each paired with that node's key, the child's with the first; with nobody on the other side only the child's, paired with the key drawn |
| BeeKemTree.BeeKem.constructor | keyhive/beekem/src/tree.rs:79-96 | a tree with the initial member |
| BeeKemTree.BeeKem.PushLeaf | keyhive/beekem/src/tree.rs:152-160 | the new member takes the next slot, the tree doubles when full, exactly the nodes above the new slot are blanked, and nothing else changes |
| BeeKemTree.BeeKem.MaybeGrowTree | keyhive/beekem/src/tree.rs:617-630 | one doubling makes room, and the old tree keeps its place in the resized vectors |
| BeeKemTree.BeeKem.BlankPath | keyhive/beekem/src/tree.rs:592-603 | exactly the nodes above the leaf are blank, and there is no encrypter |
| BeeKemTree.BeeKem.RemoveId | keyhive/beekem/src/tree.rs:164-183 | both errors, the last member first, without any change; otherwise exactly the nodes above the cleared slot or above a trailing slot given up with it are blanked, every other keeps its store, and the keys of the path are returned |
| BeeKemTree.BeeKem.EncryptPath | keyhive/beekem/src/tree.rs:275-328 | unless the code panics on a conflicting leaf in a resolution: the root secret, the change and the re-keyed tree, the state left by each error, and the number of secrets sealed |
| BeeKemTree.BeeKem.EncryptNewSecretStore | keyhive/beekem/src/tree.rs:465-516 | entries for the child and for each node the sibling resolves to and for nobody else, each with the key it is sealed under, or only the child's with a drawn key |
| BeeKemTree.BeeKem.ApplyPath | keyhive/beekem/src/tree.rs:332-376 | for any change: the tree with the path merged, only the leaf updated when the path is outdated, nothing for a removed id, an overflow for a leaf index outside the tree, an index out of bounds for a merged node outside it |
| BeeKemTree.BeeKem.IsValidPath | keyhive/beekem/src/tree.rs:607-614 | for any leaf index: overflow exactly outside the tree; otherwise valid exactly if the leaf is still there and the path as long as the tree is deep |
| BeeKemTree.BeeKem.DecryptTreeSecret | keyhive/beekem/src/tree.rs:202-259 | the nested loops compute the climb level by level, with every error and with the keys learned |
| BeeKemTree.BeeKem.MaybeDecryptParentKey | keyhive/beekem/src/tree.rs:408-433 | the parent's secret from the key map or the store, filed under its key |
| BeeKemTree.BeeKem.AppendResolution | keyhive/beekem/src/tree.rs:641-652 | appends the resolution to the accumulator |
| BeeKemTree.BeeKem.HasRootKey | keyhive/beekem/src/tree.rs:379-389 | true exactly if the root is neither blank nor in conflict |
| BeeKemTree.BeeKem.ConflictNodeCount | keyhive/beekem/src/tree.rs:396-401 | the number of nodes with more than one version |
| BeeKemTree.BeeKem.SortLeavesAndBlankPaths | keyhive/beekem/src/tree.rs:113-141 | the three loops compute the normalised tree |
| Normalise.PopMeans | keyhive/beekem/src/tree.rs:128-136 | the loop gives up the shortest suffix of slots that holds every added id |
| Normalise.SortLeavesMeans | keyhive/beekem/src/tree.rs:113-141 | given blank removed slots: the same leaves, the affected suffix contiguous and sorted by id, and exactly the paths of removed and moved slots blanked |
| Normalise.SortLeavesTidy | keyhive/beekem/src/tree.rs:113-141 | ids still point at their own leaves, and nobody joined or left |
| Normalise.SortLeavesWF | keyhive/beekem/src/tree.rs:113-141 | a well-formed tree stays well formed |
| Normalise.AddOrderDoesNotMatter | keyhive/beekem/src/tree.rs:113-160 | pushing leaves with distinct ids in any order and sorting gives the same tree |
| EpochOutcomes.AddEpochOrderDoesNotMatter | keyhive/beekem/src/cgka.rs:420-461 | two replays that list an epoch of adds of distinct members in different orders end in the same tree |
| EpochOutcomes.EpochBlanks | keyhive/beekem/src/cgka.rs:420-461 | after an epoch of several operations no inner node above a slot that one of its removals names holds a key, whatever updates it lists, nor above a member it adds and does not remove |
| History.LiveStep | keyhive/beekem/src/secret_store.rs:86-102 | one more operation supersedes exactly the live operations in its past, at the nodes it passes |
| History.OnlyLiveIsLast | keyhive/beekem/src/tree.rs:353-369 | a single live operation at a node follows every other one through it |
| Convergence.RemovedIffPast | keyhive/beekem/src/tree.rs:288-303 | the keys an update removes are exactly those of live versions it has seen |
| Convergence.UpdateRepresents | keyhive/beekem/src/tree.rs:332-376 | applying an update, in any state that has seen its past, keeps versions the causal maxima |
| Convergence.MemberRepresents | keyhive/beekem/src/tree.rs:152-183 | so does applying a membership change |
| Convergence.RunRepresents | keyhive/beekem/src/tree.rs:332-376 | for every causal order, the versions of each node are exactly those of the updates through it that no other operation through it follows |
| GroupAgreement.OrderDoesNotMatter | keyhive/beekem/src/cgka.rs:355-386 | two causal orders of the same operations give the same tree up to version order |
| GroupAgreement.SubtreeIsEncrypters | keyhive/beekem/src/tree.rs:353-369 | below a single-version node every node holds the same versions, and the same key if any, as in the tree of that version's author |
| GroupAgreement.AlwaysReadable | keyhive/beekem/src/tree.rs:202-259 | in every reachable tree every member can open every resolved node above it |
| GroupAgreement.RootKeyIffLastUpdate | keyhive/beekem/src/tree.rs:379-389 | there is a root key if and only if one update follows everything else applied |
| GroupAgreement.RootChain | keyhive/beekem/src/tree.rs:215-227 | with a root key, the encrypter is the author of that update, and every node on its path is its leaf secret ratcheted once per level |
| GroupAgreement.KeyAgreement | keyhive/beekem/src/tree.rs:202-376 | in every tree with a root key every member's decryption succeeds with the secret the encrypter's update returned |
| Secrecy.DerivedStaysInside | keyhive/beekem/src/secret_store.rs:119-159 | what is derived by ratcheting and opening ciphertexts stays in every set that both keep |
| Secrecy.StoreSecretIff | keyhive/beekem/src/tree.rs:465-516 | from a new store and held secrets the new secret can be derived if and only if ratcheting the held ones reaches it, the child's, that of a node on the other side, or the drawn one when there is none |
| GroupSecrecy.NodeHolder | keyhive/beekem/src/tree.rs:42-58 | in every reachable tree, a node's secret is known to an intruder only through the key of a leaf below the node |
| GroupSecrecy.KnownAbove | keyhive/beekem/src/tree.rs:202-259 | and through every such key |
| GroupSecrecy.KnowOpened | keyhive/beekem/src/secret_store.rs:119-159 | opening any ciphertext ever published teaches nothing beyond that |
| GroupSecrecy.PathDerivable | keyhive/beekem/src/tree.rs:202-259 | from a member's leaf key the secret of every resolved node above it can be derived |
| GroupSecrecy.SecretIff | keyhive/beekem/src/tree.rs:34-58 | an intruder with secrets that members generated, and what follows from them, derives what an update wrote at a node if and only if it holds the key of a leaf below that node in the tree the update left |
| GroupSecrecy.RootSecretIff | keyhive/beekem/src/tree.rs:275-328 | members pooling everything they ever generated derive an update's root secret if and only if one of them was in the tree it was made on |
| GroupSecrecy.RemovedIsGone | keyhive/beekem/src/tree.rs:164-183 | in every causal order, a member removed and not added again is not in the tree |
| GroupSecrecy.RemovedLearnNothing | keyhive/beekem/src/tree.rs:164-183 | members removed before an update derive nothing it wrote, however they collude |
| Recovery.UpdateClearsPath | keyhive/beekem/src/tree.rs:353-369 | a sequential update adds no conflict and clears its own path |
| Recovery.RecoveryPass | keyhive/beekem/examples/eval_partition.rs:180-230 | after concurrent updates by some members, one update by each of them in any order leaves no conflict, and no step adds one |
| TopSort.TopologicalSort.AddDependency | keyhive/beekem/src/topsort.rs:27-39 | one edge is added to both maps, which stay inverse |
| TopSort.TopologicalSort.PopAll | keyhive/beekem/src/topsort.rs:48-68 | exactly the nodes without dependencies are removed, from the map and from all dependency sets |
| Graph.AddOpSound | keyhive/beekem/src/operation.rs:206-242 | local and received operations keep the graph acyclic, predecessor-closed, true to the operations, with heads exactly the operations nothing follows |
| Graph.GraphIsFunctionOfOps | keyhive/beekem/src/operation.rs:183-246 | the same operations give identical graphs and heads |
| Graph.HeadsCover | keyhive/beekem/src/operation.rs:206-246 | every operation is a head or before one |
| Epochs.LayerIsCut | keyhive/beekem/src/operation.rs:338-344 | an epoch ends after a layer exactly where a single operation follows everything taken and precedes everything left |
| Epochs.EpochsAreExact | keyhive/beekem/src/operation.rs:266-385 | the epochs list each ancestor once and after its predecessors, and operations of different epochs are causally ordered |
| Epochs.ComparableIsSole | keyhive/beekem/src/operation.rs:266-385 | when predecessors are antichains, an operation comparable with all others is an epoch of its own |
| Epochs.SplitAtHead | keyhive/beekem/src/operation.rs:266-385 | a single head separates before from after: the epochs up to it come first and what follows it is cut on its own |
| Epochs.EndsWithHead | keyhive/beekem/src/cgka.rs:496-507 | the last epoch of the ancestors of an operation is that operation alone |
| Continuation.OutcomeContinues | keyhive/beekem/src/cgka.rs:517-541 | replaying a graph whose operations after a single head form one epoch is replaying that epoch from the outcome up to the head |
| Continuation.SteadyGrows | keyhive/beekem/src/cgka.rs:229-333 | a local operation on a replica with one head, whose members sit where a replay puts them, leaves it so |
| OperationGraph.SortIsSorted | keyhive/beekem/src/operation.rs:320 | sorting a layer gives the canonical list of its set, so hash order has no influence |
| OperationGraph.CgkaOperationGraph.AddOpAndUpdateHeads | keyhive/beekem/src/operation.rs:206-242 | the new graph, and its soundness |
| OperationGraph.CgkaOperationGraph.HeadsContainedIn | keyhive/beekem/src/operation.rs:244-246 | true exactly if every head is in the set |
| OperationGraph.CgkaOperationGraph.TopsortForHeads | keyhive/beekem/src/operation.rs:266-385 | the worklist and layer loops compute the epochs of the heads' ancestors |
| Replay.RunStepsSettled | keyhive/beekem/src/tree.rs:371-389 | after any steps, with any concurrency, there is a root key if and only if there is a current encrypter |
| Replay.ReflectsStep | keyhive/beekem/src/cgka.rs:398-415 | applying an operation and adding it to the graph keeps the tree a reflection of the graph |
| Replay.ReplayApplies | keyhive/beekem/src/cgka.rs:420-461 | a replay applies each operation of the epochs once, in order |
| EpochOutcomes.EpochSucceedsIff | keyhive/beekem/src/cgka.rs:420-461 | any epoch replays, the sort included, if and only if the members and slots alone accept each operation in turn and the removed slots are free at the end; and the members and slots that result |
| EpochOutcomes.ReplaySucceedsIff | keyhive/beekem/src/cgka.rs:517-541 | replaying the ancestors of any operations succeeds if and only if members and slots get through all their epochs, and leaves them where that leads |
| EpochOutcomes.RemovalsSucceedIff | keyhive/beekem/src/cgka.rs:420-461 | an epoch of removals replays, the sort included, if and only if its targets are distinct members and not everyone and, for more than one, every slot named is blank or vacated |
| EpochOutcomes.RemovalsInPlaceSucceedIff | keyhive/beekem/src/cgka.rs:420-461 | when each removal names the slot of its target, the slots need no condition |
| Failures.DoubleRemoveFails | keyhive/beekem/src/cgka.rs:420-461 | an epoch that removes one member twice, without adding it in between, fails to replay |
| Failures.ConcurrentRemovesFail | keyhive/beekem/src/cgka.rs:517-541 | in any graph where neither of two removals of a member saw the other, and both saw every add of it, the replay fails, however digests sort |
| Failures.StuckReplicaFails | keyhive/beekem/src/cgka.rs:229-386 | a replica with such removals outstanding fails every add, removal and update, and every received operation that follows all it holds, without any change |
| Failures.StuckStays | keyhive/beekem/src/cgka.rs:355-386 | whatever it receives other than an add of that member, it stays so |
| Failures.TwoRemovalsStick | keyhive/beekem/src/cgka.rs:510-513 | two such removals among the heads suffice |
| Failures.RemovalsArise | keyhive/beekem/src/cgka.rs:273-386 | two removals of one member made in one state, one of them then received by the other replica, lead there |
| StrayUpdates.UpdateAppliesIff | keyhive/beekem/src/tree.rs:332-376 | exactly when an update overflows, by the walk up from its leaf index, exactly when it indexes out of bounds, and that it applies otherwise |
| StrayUpdates.OvertakenUpdate | keyhive/beekem/src/cgka.rs:398-415 | in any full tree: a removal of the last leaf, then an add, then the update the newcomer made without seeing the removal overflows |
| StrayUpdates.OvertakenOutcome | keyhive/beekem/src/cgka.rs:420-461 | in any graph with these three operations after a single head, the replay succeeds if and only if the add sorts before the removal, and otherwise overflows |
| StrayUpdates.OvertakenRun | keyhive/beekem/src/cgka.rs:229-386 | replicas take these steps from any state with one head and a full tree |
| StrayUpdates.FullTreeExample | keyhive/beekem/src/cgka.rs:93-386 | the run from the first member on, with two members |
| LateUpdates.OwnUpdateSucceedsIff | keyhive/beekem/src/cgka.rs:304-333 | an own update succeeds if and only if the graph replays, the member is in the tree and no conflicting leaf is exposed to it |
| LateUpdates.LateUpdateInEpoch | keyhive/beekem/src/cgka.rs:420-461 | any epoch that adds a member and later applies an update it made for another slot without seeing the add, with no later update or operation on it, leaves both keys at its leaf, and nobody else can encrypt a path |
| LateUpdates.ReaddedOutcome | keyhive/beekem/src/cgka.rs:420-461 | in any graph where after a single head a member is removed and added back and concurrently updates twice, the replay succeeds, and its leaf ends up with several keys and none above it if and only if the add sorts before the second update |
| LateUpdates.ReaddedRun | keyhive/beekem/src/cgka.rs:229-386 | replicas take these steps from any state with one head, and then every other member's update stops at the conflicting leaf |
| LateUpdates.ReaddExample | keyhive/beekem/src/cgka.rs:93-386 | the run from the first member on, with three members |
| DoubleAdds.DoubleAddOutcome | keyhive/beekem/src/cgka.rs:420-461 | two adds of one member made after a single head replay to a tree with both leaves, so ids and leaves are not inverse |
| DoubleAdds.DoubleAddRun | keyhive/beekem/src/cgka.rs:229-386 | replicas take these steps; once the member is removed one leaf stays, and every member's update seals a secret of its path for that leaf's key |
| StaleAnswers.AddAnswers | keyhive/beekem/src/cgka.rs:229-256 | `add` does nothing if and only if the tree has the member before any replay; otherwise the member gets a slot in the replayed tree, and ids and leaves stay inverse if and only if it was not there |
| StaleAnswers.RemoveAnswers | keyhive/beekem/src/cgka.rs:273-299 | `remove` does nothing if and only if the tree lacks the member before any replay; otherwise it fails, replayed, if and only if the replayed tree lacks it or has one member |
| StaleAnswers.PairOutcome | keyhive/beekem/src/cgka.rs:420-461 | a membership change and an update made after a single head replay in either order, with the member added or gone |
| StaleAnswers.StaleAddRun | keyhive/beekem/src/cgka.rs:229-386 | from any state with one head: while a member's add is kept for later `remove` does nothing, and `add` gives the member a second leaf |
| StaleAnswers.StaleRemoveRun | keyhive/beekem/src/cgka.rs:229-386 | while a removal is kept for later `add` does nothing, and `remove` replays and fails |
| StaleAnswers.FrozenUntilSeen | keyhive/beekem/src/cgka.rs:355-386 | once a membership change is kept for later, nothing received changes the tree until an operation has seen every head |
| StaleAnswers.SeenEndsWait | keyhive/beekem/src/cgka.rs:355-386 | such an operation is applied to the replay of everything held, and the wait ends if and only if that succeeds |
| KeyOffers.KeyOfferedIff | keyhive/beekem/src/cgka.rs:221-225 | in any sound graph a key is offered if and only if there is a root key, one operation follows all others, and no two adds are unseen by every other add |
| KeyOffers.HiddenKeyRun | keyhive/beekem/src/cgka.rs:221-386 | from any state with one head and no conflicting leaves: two replicas add members, one receives the other's add and updates; there is a root key and the update follows everything, but no key is offered |
| KeyOffers.HiddenKeyExample | keyhive/beekem/src/cgka.rs:93-386 | the run from the first member on |
| CgkaReplica.Cgka.NewFromInitAdd | keyhive/beekem/src/cgka.rs:105-126 | a replica with the initial add, which its tree reflects |
| CgkaReplica.Cgka.HasPcsKey | keyhive/beekem/src/cgka.rs:221-225 | a key is offered if and only if there is a root key, one operation follows all others and at most one add is unseen by the other adds; then nothing is pending and the tree reflects every operation seen |
| CgkaReplica.Cgka.ApplyOperation | keyhive/beekem/src/cgka.rs:398-415 | a known operation is skipped, a failing one is not added, an update naming a leaf outside the tree included, any other changes tree and graph together |
| CgkaReplica.Cgka.ApplyEpochs | keyhive/beekem/src/cgka.rs:420-461 | succeeds exactly if all steps of the replay do, with their tree, and otherwise fails with their first error |
| CgkaReplica.Cgka.RebuildFrom | keyhive/beekem/src/cgka.rs:527-561 | a fresh replica holding exactly the given ancestors |
| CgkaReplica.Cgka.ReplayOpsGraph | keyhive/beekem/src/cgka.rs:517-541 | the replayed tree and no pending operations, or no change; the branch that decrypts in the rebuilt replica is dead |
| CgkaReplica.Cgka.MergeConcurrentOperation | keyhive/beekem/src/cgka.rs:355-386 | eager, deferred, refused, repeated, replayed and failing cases with their states, and the pending invariant |
| CgkaReplica.Cgka.AddMember | keyhive/beekem/src/cgka.rs:229-256 | nothing happens if and only if the tree has the member before the replay; otherwise the operation created, on the replayed tree, naming all heads |
| CgkaReplica.Cgka.RemoveMember | keyhive/beekem/src/cgka.rs:273-299 | the same for removal, of a member the tree lacks before the replay, with its errors |
| CgkaReplica.Cgka.UpdateOwn | keyhive/beekem/src/cgka.rs:304-333 | the root secret and operation, that the own tree is what receivers will compute, and a stop exactly when a conflicting leaf is in a resolution off the path |
| CgkaReplica.Cgka.PcsKeyFromTreeRoot | keyhive/beekem/src/cgka.rs:464-469 | decrypts the current tree and keeps the keys learned |
| CgkaReplica.Cgka.DerivePcsKeyForOp | keyhive/beekem/src/cgka.rs:496-561 | an unknown operation is an error, one that is not an update fails the assertion, and for an update the tree of its ancestors is rebuilt and decrypted |
| HistoryGraph.PastOfGraph | keyhive/beekem/src/cgka.rs:243-252 | when operations name the heads their creator saw, the graph's pasts are the causal pasts |
| HistoryGraph.EndsAreMaxima | keyhive/beekem/src/operation.rs:206-246 | the heads are the causally maximal operations seen |
| HistoryGraph.EpochsArePlain | keyhive/beekem/src/cgka.rs:420-461 | when only updates are concurrent, no epoch needs the leaf sort |
| HistoryGraph.OpSucceeds | keyhive/beekem/src/cgka.rs:398-415 | when only updates are concurrent, every operation applies to the tree of any causal order that includes its past; an update never names a leaf outside it |
| HistoryGraph.ReplayIsRun | keyhive/beekem/src/cgka.rs:517-541 | replaying the ancestors of any heads succeeds and is running a causal order of exactly those operations |
| Peers.EagerRefinesReplay | keyhive/beekem/src/cgka.rs:355-541 | applying operations on arrival gives the tree of the rebuild from the sorted graph, up to version order |
| Peers.MergeFollows | keyhive/beekem/src/cgka.rs:355-386 | a delivered operation is applied exactly if its past is known, never deferred, and the tree stays that of a causal order of what was seen |
| RunSecrecy.RunQuiet | keyhive/beekem/src/cgka.rs:229-469 | in every state of every run each replica holds fresh secrets of its own member and what those allow to know, and nothing else |
| RunSecrecy.SecretInRun | keyhive/beekem/src/cgka.rs:229-469 | from all that some replicas hold at one time and all that is published until a later time, what an update wrote at a node can be derived if and only if one of them held the key that a leaf below had in the tree the update left |
| RunSecrecy.RemovedInRun | keyhive/beekem/src/cgka.rs:273-333 | in every reachable state, members removed before an update and not added again cannot derive its root secret or anything else it wrote |
| RunSecrecy.HealedInRun | keyhive/beekem/src/cgka.rs:304-333 | once every member whose replica leaked has a new leaf key, updates cannot be derived from the leak |
| Network.InitInv | keyhive/beekem/src/cgka.rs:93-126 | the first replica satisfies the group invariant |
| Network.NextInv | keyhive/beekem/src/cgka.rs:229-386 | every step keeps it: adding, removing, updating, delivering in any order, joining, key generation, reading the key |
| Network.RunInv | keyhive/beekem/src/cgka.rs:229-386 | it holds in every state of every run |
| GroupOutcomes.PeersConverge | keyhive/beekem/src/cgka.rs:355-386 | replicas with the same operations have equal graphs, the same tree, and offer a key together |
| GroupOutcomes.KeyIffLastUpdate | keyhive/beekem/src/cgka.rs:221-225 | a replica offers a key if and only if the last operation it has seen is an update that follows all others |
| GroupOutcomes.KeysAgree | keyhive/beekem/src/cgka.rs:464-469 | a member's replica that offers a key decrypts the secret of its one head, an update |
| GroupOutcomes.UpdateReturnsRootSecret | keyhive/beekem/src/cgka.rs:304-333 | that secret is what the update returned to its author |
| GroupOutcomes.PastKeysAgree | keyhive/beekem/src/cgka.rs:496-561 | for any update seen, rebuilding and decrypting gives the secret its author got, for everyone who was a member then |
| GroupOutcomes.CanUpdate | keyhive/beekem/src/cgka.rs:304-333 | a member who has seen all membership changes can update at any time and then holds a key |
| GroupOutcomes.CanDeliver | keyhive/beekem/src/cgka.rs:355-386 | any operation whose past a replica has seen can be delivered to it |
| Ingest.LeastIsUnique | keyhive/keyhive_core/src/keyhive.rs:2190-2247 | there is one outcome for every order of the events |
| Ingest.BatchesCombine | keyhive/keyhive_core/src/keyhive.rs:2190-2247 | ingesting a batch with the left-over events is ingesting everything at once |
| Ingest.IngestIsFixedPoint | keyhive/keyhive_core/src/keyhive.rs:2190-2247 | ingesting the left-over events alone accepts nothing more |
| Ingest.Keyhive.IngestUnsorted | keyhive/keyhive_core/src/keyhive.rs:2190-2247 | the loop ends; over all calls the accepted events are the least complete set of everything received, and the result is exactly what cannot be accepted |
| Prekeys.ReachIff | keyhive/keyhive_core/src/keyhive.rs:1000-1076 | an agent reaches exactly the active agent, itself, the groups and documents it belongs to and their members |
| Prekeys.ReachableForAgent | keyhive/keyhive_core/src/keyhive.rs:1000-1076 | the keys are exactly the active agent, the agent, its groups and documents and their members, each with its own sorted operations |
| Prekeys.ReachableForAllAgents | keyhive/keyhive_core/src/keyhive.rs:1088-1217 | exactly the active agent, the individuals and the members are indexed, each with exactly what it reaches, and exactly the identifiers involved anywhere have operations |
| Prekeys.BatchAgrees | keyhive/keyhive_core/src/keyhive.rs:1088-1217 | looking an indexed agent up gives exactly the result of the query for that agent |

## Left out

- Concrete cryptography, signatures, serialisation, tracing and instrumentation: symbolic or absent.
- `new_app_secret_for`, `decryption_key_for` and the caches of PCS keys: `pcs_key_ops` is not filled for received updates, so no lookup is assumed.
- `Fork` and `Merge` for the replica and the graph: their union of heads is not pruned.
- Convergence with concurrent membership changes: the result of an epoch that mixes removals with adds or updates depends on digests; proved there are the pending invariant, well-formedness, when an epoch replays, the sort and add-only epochs.
- CgkaReplica.Cgka.MergeConcurrentOperation: the tree is a value computed by the functions class `BeeKem` is proved against, not a `BeeKem` object; the limit on leaves, which `BeeKem` requires, does not appear there.
- What an overflowing, asserting or panicking call leaves behind: the replica keeps its state, and `BeeKem` only its invariant.
- CgkaReplica.Cgka.RebuildFrom: the two rebuild methods share everything but their last lines, which are in the callers.
- RunSecrecy.SecretInRun: it is about secrets in the tree, not about the application keys derived from them, and inherits the restriction of `Network.RunInv`.
- Network.RunInv: membership changes are restricted to replicas that have seen every operation, and a member's prekey secret is known to that member.
- Ingest.Keyhive.IngestUnsorted: what makes an event acceptable is a parameter assumed monotone, and unrecoverable errors are assumed not to depend on the state.
- Prekeys.ReachableForAgent: transitive member maps, key operations by identifier and their topological sort are parameters.
- The rest of `keyhive_core` (groups, delegations, revocations, documents, archives), the OpenMLS wrappers and the evaluation scripts.
