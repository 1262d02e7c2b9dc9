# Models of the WinOFED component library and MAD services

This project models the parts of WinOFED that carry the most state and proves what
they promise. The Dafny files fall into four groups.

**Maps.** `RedBlack` is the theory of red-black trees with a focus: a tree is a subtree in
a one-hole context, and each case of the rebalancing loops is a lemma that says what is
still wrong with the tree and that its entries are the same. `MapLayout` and `MapThread`
say how trees and the list of items lie in the items' fields. `QuickMap` is `cl_qmap`: a
class whose methods change `left`, `right`, `up`, `red`, `prev` and `next` of the items in
place, loop by loop as the C code does, with the sentinels `root` and `nil`. Its invariant
`Valid` says that the items represent a sorted red-black tree with a black root, that the
list is its in-order sequence, and that `count` is its size. `MapAlgebra` has merge and
delta on these maps. `Pool` is `cl_qcpool`, and `PooledMap` is `cl_map`: a `QMap` whose
items come from a pool, so that an insertion can fail for lack of an item.

**Objects.** `ObjectRefs` is `cl_obj` as a state machine whose steps are the atomic
counter updates and locked regions of all threads. `ObjectWitness` has two runs of it.
`ObjectDestroy` drives its steps with the recursive routines of a synchronous destruction.

**MAD service.** `MadSend` is one tracked send: what each event does to it. `MadService`
is a service with any number of sends and received elements; every locked region is a step
and so is every callback that follows one, so that runs cover all interleavings.
`RmppFormat`, `RmppReceive` and `RmppTransfer` are segmentation, reassembly and one
transfer between two services (RMPP, section 13.6 of the InfiniBand Architecture
Specification, Volume 1). The network is the set of everything ever sent, of which
anything may arrive at any time, any number of times or never.
`RmppLossless` is the same transfer over a network that loses, repeats and reorders nothing.

**Queues.** `MadDispatch` and `MadQueues` are the dispatcher and the queues of the MAD
queue pair. `RequestManager` is `cl_req_mgr`.

`Options` and `Lists` hold what several modules share.

Allocation, hardware acceptance of work requests, clocks and the peer are inputs: boolean
parameters, nondeterministic choices or steps that may be taken at any time.

## Where the code does less than one might expect

- The size that a receiver computes for a reassembled MAD is the size that was sent exactly
  for the SA class (`RmppFormat.SizeRestored`). For other classes sender and receiver
  disagree by `MAD_RMPP_HDR_SIZE`.
- A MAD that is just its header fails the assertion of a debug build that there is data to
  copy (`RmppFormat.NothingToSend`); a release build sends one segment of zeros, as
  `RmppFormat.BuildSegment` does.
- When the receive buffer cannot be grown, `expected_seg` passes `seg_limit`
  (`RmppReceive.WindowKept` says exactly when). Only an assertion guards the copy of the next
  segment, so that a release build does not drop it but copies it all the same.
  `RmppReceive.PastTheWindow` says exactly which segments still fit the buffer. The sender
  of the same source does send one that does not: for every MAD of several segments, and only
  for these (`RmppTransfer.OverrunExactly`), from every state of a send under way
  (`RmppTransfer.CanOverrun`). `RmppReceive.Reassembly.ProcessSegment` and the runs of
  `RmppTransfer` go up to that arrival.
- `cl_map_merge` tells a moved entry from a duplicate by comparing object pointers. An entry
  whose key has the same object in both maps is therefore taken as moved, and the source
  loses it (`PooledMap.MergeKeepsDuplicates`).
- `cl_map_insert` reports failure as NULL. A merge can lose an entry for NULL when items are
  short (`PooledMap.EntryKept` says exactly when), and a delta fails, restoring all four maps,
  whenever an object in a difference is NULL (`PooledMap.Delta`).
- Only the parent of the last relation is sure to outlive the free callback of a child
  (`ObjectRefs.LastParentOutlives`); another one may be freed before it
  (`ObjectRefs.OtherParentMayGoFirst`), and there is a run from the start in which it is
  (`ObjectWitness.ParentFreedFirst`).
- `cl_obj_insert_rel` looks at the state of the parent only, and the walk that unlinks an
  object from its parents does not hold the lock of the object. A relation added to a child
  is cut if and only if the walk has not read the tail of the list by then
  (`ObjectRefs.CutIfBeforeTail`). One that it missed keeps the destruction of the child
  waiting until the relation is removed (`ObjectRefs.MissedWaits`), and there is a run from the
  start in which one is missed (`ObjectWitness.RelationMissed`). All that a caller can check is
  the state of the child: while it is `CL_INITIALIZED`, the relation will be cut.
- `cl_obj_remove_rel` of the relation at which such a walk stands takes its place away from it
  (`ObjectRefs.WalkLosesItsPlace`). Runs of `ObjectRefs` exclude it; a child that is
  `CL_INITIALIZED` is safe here, too.

## Model

| member | source | states |
|---|---|---|
| `RedBlack.RotatedFlat` | core/complib/cl_map.c:565-644 | a rotation, either way, keeps the in-order sequence of the tree |
| `RedBlack.NewItemReady` | core/complib/cl_map.c:805-864 | a red item put into a leaf position of a valid tree breaks at most the rule about red children, and only at that item |
| `RedBlack.RecoloredReady` | core/complib/cl_map.c:742-753 | red uncle: recolouring moves the one possible violation two levels up, with the entries unchanged |
| `RedBlack.StraightReady` | core/complib/cl_map.c:755-759 | the inner rotation of an insertion keeps the violation at the focus and the entries unchanged |
| `RedBlack.LiftedReady` | core/complib/cl_map.c:760-763 | the outer rotation of an insertion with its repainting removes the violation; entries unchanged |
| `RedBlack.RedSiblingReady` | core/complib/cl_map.c:903-909 | red sibling: rotating it up leaves the same debt of one black level, now with a black sibling; entries unchanged |
| `RedBlack.BlackNephewsReady` | core/complib/cl_map.c:911-918 | black nephews: painting the sibling red moves the debt of one black level to the parent |
| `RedBlack.StraightSiblingReady` | core/complib/cl_map.c:920-924 | the inner rotation of a removal keeps the debt and the entries |
| `RedBlack.RepaidReady` | core/complib/cl_map.c:925-929 | the outer rotation of a removal repays the debt: the context fits the focus again; entries unchanged |
| `RedBlack.TakeOutReady` | core/complib/cl_map.c:1006-1020 | bypassing an item with one child leaves a valid tree if the item was red, and otherwise one that lacks one black level at the child |
| `RedBlack.SuccessorEntries` | core/complib/cl_map.c:988-999 | the successor of a two-child item is the leftmost item of the right subtree, has no left child, and comes right after it in order |
| `RedBlack.ExtractEntries` | core/complib/cl_map.c:983-1041 | taking the victim out, and giving it the place of the removed item when they differ, leaves the old sequence without the removed item |
| `RedBlack.ExchangeEntries` | core/complib/cl_map.c:1028-1041 | putting the victim in the place of the removed item replaces exactly that entry |
| `RedBlack.RemoveEntries` | core/complib/cl_map.c:968-1049 | dropping the entry of the item leaves a sorted sequence that lacks that entry only |
| `RedBlack.PlaceEntries` | core/complib/cl_map.c:805-864 | an item put into the leaf that the search for its key ends in stands in sorted position |
| `RedBlack.InsertedSorted` | core/complib/cl_map.c:805-864 | the insertion point in key order is unique and the sequence stays sorted |
| `RedBlack.SearchEnd` | core/complib/cl_map.c:686-701 | a search that ends in a leaf proves the key absent from the whole map |
| `RedBlack.SuccessorEnd` | core/complib/cl_map.c:1751-1767 | when the search for a key ends, what follows the gap is the least greater key, or there is none |
| `RedBlack.Populous` | core/complib/cl_map.c:55-57 | a valid tree of black height h has at least 2^h - 1 items |
| `RedBlack.ShallowCtx` | core/complib/cl_map.c:55-57 | no path down a valid tree is longer than twice its black levels |
| `RedBlack.ShortPath` | core/complib/cl_map.c:678-702 | any path of a valid tree with n items has at most 2*log2(n+1) items on it |
| `MapLayout.RotateZip` | core/complib/cl_map.c:565-644 | the pointer changes of a rotation turn the layout of a tree in its surroundings into the layout of the rotated tree |
| `MapLayout.AttachZip` | core/complib/cl_map.c:831-864 | linking a new item below its parent lays out the tree with that item in place of the leaf |
| `MapLayout.BypassZip` | core/complib/cl_map.c:1006-1017 | unlinking the victim lays out the tree with its only child in its place |
| `MapLayout.SubstituteZip` | core/complib/cl_map.c:1028-1041 | giving the victim the links and colour of the removed item lays out the same tree with the one item replaced |
| `MapThread.ThreadInsert` | inc/complib/cl_qlist.h:292-306 | linking an item in front of another one adds it to the list at that place |
| `MapThread.ThreadRemove` | inc/complib/cl_qlist.h:330-343 | unlinking an item removes it from the list and keeps the order of the others |
| `QuickMap.QMap.constructor` | core/complib/cl_map.c:647-675 | a new map is valid and empty |
| `QuickMap.QMap.RemoveAll` | inc/complib/cl_qmap.h:814-825 | the map is valid and empty afterwards, whatever it held |
| `QuickMap.QMap.RotLeft` | core/complib/cl_map.c:565-596 | the fields change as a left rotation at the item says; nil's parent field is left alone |
| `QuickMap.QMap.RotRight` | core/complib/cl_map.c:614-644 | the fields change as a right rotation at the item says; nil's parent field is left alone |
| `QuickMap.QMap.Rotate` | core/complib/cl_map.c:565-644 | the items then represent the rotated tree in the same surroundings |
| `QuickMap.QMap.InsRecolor` | core/complib/cl_map.c:742-753 | the items then represent the recoloured tree, seen from the grandparent |
| `QuickMap.QMap.InsStraighten` | core/complib/cl_map.c:755-759 | the items then represent the tree after the inner rotation |
| `QuickMap.QMap.InsLift` | core/complib/cl_map.c:760-763 | the items then represent the tree after the outer rotation |
| `QuickMap.QMap.InsBal` | core/complib/cl_map.c:729-787 | the loop ends with a tree without red children of red items and with equal black heights, and with the entries it began with |
| `QuickMap.QMap.Seek` | core/complib/cl_map.c:810-826 | finds the item with the key, or the leaf where the key belongs |
| `QuickMap.QMap.PrimitiveInsert` | inc/complib/cl_qlist.h:292-306 | links the item in front of the other one and changes nothing else |
| `QuickMap.QMap.PrimitiveRemove` | inc/complib/cl_qlist.h:330-343 | unlinks the item and changes nothing else |
| `QuickMap.QMap.Splice` | core/complib/cl_map.c:830-864 | the new item is a red leaf in the tree, and in the list between the entries before and after its leaf position |
| `QuickMap.QMap.Insert` | core/complib/cl_map.c:790-887 | a new key is added in order and the map is valid again; on a key that is present the map is unchanged and its item returned |
| `QuickMap.QMap.DelRedSibling` | core/complib/cl_map.c:903-909 | the items then represent the tree with the red sibling rotated up |
| `QuickMap.QMap.DelStraighten` | core/complib/cl_map.c:920-924 | the items then represent the tree with the sibling straightened |
| `QuickMap.QMap.DelRepay` | core/complib/cl_map.c:925-929 | the items then represent the tree with the debt repaid |
| `QuickMap.QMap.DelBal` | core/complib/cl_map.c:890-965 | the loop ends with a valid tree with a black root, and with the entries it began with |
| `QuickMap.QMap.Victim` | core/complib/cl_map.c:983-999 | the item taken out of the tree has at most one child: the item itself, or the next one of the list, which is the leftmost of its right subtree |
| `QuickMap.QMap.TakeOut` | core/complib/cl_map.c:1006-1020 | after unlinking and rebalancing, the tree is valid and lacks exactly that item |
| `QuickMap.QMap.Exchange` | core/complib/cl_map.c:1028-1041 | splicing the victim in after the rebalancing leaves a valid tree with the one item replaced |
| `QuickMap.QMap.RemoveItem` | core/complib/cl_map.c:968-1049 | from any valid map, removing any item leaves a valid map (order, colours, black heights, parent links, list, count) with the old contents without it; nil leaves it unchanged |
| `QuickMap.QMap.Remove` | core/complib/cl_map.c:1052-1068 | removes and returns the item with the key, or returns nil and changes nothing |
| `QuickMap.QMap.Get` | core/complib/cl_map.c:678-702 | returns the item with the key, or nil exactly if there is none; the items visited are those of one path of the tree, at most 2*log2(n+1) |
| `QuickMap.QMap.GetNext` | core/complib/cl_map.c:1741-1768 | returns the item with the least key strictly above the given one, or nil if there is none |
| `QuickMap.QMap.Head` | inc/complib/cl_qmap.h:528-535 | returns the first item in key order, or nil |
| `QuickMap.QMap.Next` | inc/complib/cl_qmap.h:604-610 | returns the next item in key order, or nil |
| `MapAlgebra.Merge` | core/complib/cl_map.c:1071-1101 | the destination gets the entries whose keys it lacked, and the source keeps exactly the others, although the loop changes the map it walks |
| `MapAlgebra.DeltaMove` | core/complib/cl_map.c:1104-1124 | moves one item to the other map and steps to the next one |
| `MapAlgebra.Walk` | core/complib/cl_map.c:1144-1168 | the side-by-side walk has moved every key seen on one side only |
| `MapAlgebra.Delta` | core/complib/cl_map.c:1127-1176 | each map keeps the entries with common keys, the outputs get the keys that only one of the maps had |
| `Pool.ObjectPool.constructor` | core/complib/cl_pool.c:67-145 | before its first growth a pool has no objects |
| `Pool.ObjectPool.Init` | core/complib/cl_pool.c:94-160 | a pool starts with exactly min_size free objects, or fails with every object it had created destroyed; it fails exactly if the minimum is above the maximum or memory or an initializer fails |
| `Pool.ObjectPool.Grow` | core/complib/cl_pool.c:216-319 | creates exactly as many objects as asked, allowed and initialized, newest first at the head of the free list; a failure keeps those created so far and disturbs none in use |
| `Pool.ObjectPool.Get` | core/complib/cl_pool.c:323-354 | hands out an object exactly if one is free or a growth creates one; the pool grows only when none is free |
| `Pool.ObjectPool.Put` | inc/complib/cl_qcomppool.h:640-652 | the object is free again; every object stays either free, once, or in use |
| `Pool.ObjectPool.Destroy` | core/complib/cl_pool.c:165-212 | the destructor is called once for every free object, in order |
| `PooledMap.CMap.Insert` | core/complib/cl_map.c:1235-1260 | returns NULL and changes nothing exactly if no item is free and the pool cannot be grown; otherwise stores the object in an item and returns it, or returns the one at the key; the items in the tree stay exactly those handed out, and every item keeps its place |
| `PooledMap.CMap.RemoveItem` | core/complib/cl_map.c:1281-1293 | removes the entry of the item and gives the item back to the pool |
| `PooledMap.CMap.Head` | inc/complib/cl_map.h:429-435 | the item with the least key of the contents, or the end |
| `PooledMap.CMap.Next` | inc/complib/cl_map.h:500-506 | the item with the next key of the contents, or the end |
| `PooledMap.TakeOver` | core/complib/cl_map.c:1357-1378 | moves one entry unless the destination has another object there; otherwise it goes back, because the removal freed an item for it; all outcomes, NULL objects included; the entry is kept if and only if there is an item for it, or the object is not NULL, or the destination has NULL at its key |
| `PooledMap.EntryKept` | core/complib/cl_map.c:1363-1376 | the entry is in one of the maps afterwards if and only if it is not for NULL, or there was an item for it, or the destination has NULL at its key too |
| `PooledMap.Merge` | core/complib/cl_map.c:1341-1382 | all keys up to the point of failure are merged and the others untouched, unless a NULL object meets a shortage of items; it cannot fail when the destination has an item for every entry that needs one or its pool can always be grown, and no NULL of its own at the key of another object |
| `PooledMap.MergeKeepsDuplicates` | core/complib/cl_map.c:1367-1378 | the source keeps all duplicate keys if and only if no key has the same object in both maps |
| `PooledMap.MoveEntry` | core/complib/cl_map.c:1402-1431 | moves one entry and frees an item in the source for it; otherwise the source is as before, and so is the destination unless the object is NULL |
| `PooledMap.DeltaMove` | core/complib/cl_map.c:1402-1435 | the iterator taken before the move is at the next entry after it; it fails only if items are short of the whole difference or an object in it is NULL |
| `PooledMap.Compare` | core/complib/cl_map.c:1463-1497 | the side-by-side walk keeps an item free in each source for every entry it has moved out |
| `PooledMap.MoveRest` | core/complib/cl_map.c:1499-1522 | what is left of one map when the other has ended is in that map only |
| `PooledMap.Revert` | core/complib/cl_map.c:1385-1399 | the moves of one side are undone completely; items cannot run out, and a NULL object left in both maps by a failed move goes too |
| `PooledMap.Delta` | core/complib/cl_map.c:1438-1525 | for all maps, either both differences and the common remainder, or both inputs as they were and both outputs empty; the latter only if an output lacks items for its whole difference and cannot be grown, or an object in a difference is NULL |
| `ObjectRefs.InvStep` | core/complib/cl_obj.c:249-523 | creating, referencing, dereferencing, relating and every part of destroying objects keeps links recorded on both sides, every count equal to the references that exist, what is ahead of an unlinking walk linked, and callbacks due exactly for dropped objects without references |
| `ObjectRefs.NewObject` | core/complib/cl_obj.c:249-286 | a new object has only its own reference and no relations, and keeps its children on destruction as it was told to |
| `ObjectRefs.CountsAlwaysRight` | core/complib/cl_obj.c:262-262 | in every state that any interleaving reaches, relations added behind an unlinking walk included, ref_cnt is the self reference plus the relations naming the object as child or as parent plus those held outside or by a destroying thread |
| `ObjectRefs.FreedOnce` | core/complib/cl_obj.c:787-818 | in every interleaving the free callback of an object runs at most once |
| `ObjectRefs.ZeroHit` | core/complib/cl_obj.c:472-508 | a count falls to zero only in cl_obj_deref, only after the object has dropped its own reference, and then makes exactly one destruction callback due |
| `ObjectRefs.UnlinkNotLast` | core/complib/cl_obj.c:600-606 | the plain decrement of an unlinking never takes a count to zero |
| `ObjectRefs.ZeroOnce` | core/complib/cl_obj.c:472-508 | in every interleaving a count falls to zero at most once, and it is zero afterwards exactly if it fell to zero or was zero before |
| `ObjectRefs.FreedByLastDeref` | core/complib/cl_obj.c:485-507 | in every interleaving from the start, the free callback of an object runs no more often than its count falls to zero, which is at most once |
| `ObjectRefs.FreedAlone` | core/complib/cl_obj.c:716-735 | from the time its count reaches zero for good, no relation, thread or user refers to the object |
| `ObjectRefs.LastParentOutlives` | core/complib/cl_obj.c:747-818 | in every interleaving from the time the walk has cut the last relation of an object, as long as the object gets no new one, the parent of that relation is freed only after the free callback of the object; once the object is closing, in every interleaving |
| `ObjectRefs.OtherParentMayGoFirst` | core/complib/cl_obj.c:760-780 | from any state in which another parent waits for its last reference, it can be freed before the free callback of the child |
| `ObjectWitness.WaitingReached` | core/complib/cl_obj.c:680-780 | such a state is reached from the start |
| `ObjectWitness.ParentFreedFirst` | core/complib/cl_obj.c:747-818 | a run from the start after which a parent is freed and its child is not |
| `ObjectRefs.InsertRelStep` | core/complib/cl_obj.c:353-402 | a new relation keeps links and counts right, however far the destruction of the child has come, as long as somebody holds a reference on it |
| `ObjectRefs.CutIfBeforeTail` | core/complib/cl_obj.c:577-617 | in every interleaving in which it is not removed, a relation added to a child has been cut when the walk over the parents of the child is over if and only if the walk had not read the tail of the list when it was added; a child that is still initialized, which a caller can check, is safe |
| `ObjectRefs.MissedWaits` | core/complib/cl_obj.c:713-735 | in every interleaving, until a relation that the walk missed is removed, the count of the child stays above zero and its free callback does not run |
| `ObjectWitness.RelationMissed` | core/complib/cl_obj.c:577-617 | a run from the start after which the walk has missed a relation, and the object has dropped its own reference and waits for that one |
| `ObjectRefs.RemoveRelStep` | core/complib/cl_obj.c:410-442 | removing a relation that has both its ends, and at which no walk stands, keeps links and counts right and the walk at its place; until its two decrements the references are held by the removing thread |
| `ObjectRefs.WalkLosesItsPlace` | core/complib/cl_obj.c:410-442 | removing a relation leaves the walk of the child at a relation that is still listed and has its parent if and only if the walk does not stand at the one removed; it stands at none while the child is initialized |
| `ObjectRefs.UnlinkStep` | core/complib/cl_obj.c:584-616 | one pass of the walk, at the relation it has reached from the tail, drops the reference of the child, keeps that of the parent, and moves on to the relation before it |
| `ObjectRefs.ReleaseParentStep` | core/complib/cl_obj.c:760-780 | releasing a parent, or taking over the reference on the last one, keeps all counts right |
| `ObjectRefs.ReleaseLastStep` | core/complib/cl_obj.c:816-817 | releasing the last parent after the free callback keeps all counts right |
| `ObjectDestroy.Graph.RemoveParentRels` | core/complib/cl_obj.c:577-617 | afterwards no parent lists the object as a child; nothing else changes |
| `ObjectDestroy.Graph.ClaimChild` | core/complib/cl_obj.c:645-662 | the child is marked as being destroyed, with its count as before |
| `ObjectDestroy.Graph.DestroyChildren` | core/complib/cl_obj.c:622-671 | the loop ends, with all children of the object and what is below them freed, each once and after its own children |
| `ObjectDestroy.Graph.DestroyObj` | core/complib/cl_obj.c:680-739 | frees the object last, after exactly its descendants that were not freed yet |
| `ObjectDestroy.Graph.DerefParents` | core/complib/cl_obj.c:747-782 | releases all parents but the last, whose reference it takes over |
| `ObjectDestroy.Graph.DestroyCallback` | core/complib/cl_obj.c:787-818 | the object is freed once, and all its parents are released |
| `ObjectDestroy.Graph.Destroy` | core/complib/cl_obj.c:291-311 | destroying an object of an acyclic graph without outside references terminates; each object freed is freed once, its children before it |
| `ObjectDestroy.FreesDescendants` | core/complib/cl_obj.c:622-739 | the objects freed are the least set with the object and all children of its members, shared children included |
| `ObjectDestroy.OnlyItself` | core/complib/cl_obj.c:713-716 | with its children gone, the object's own reference is the only one left, so that the wait for the count ends |
| `ObjectDestroy.CutMeansFreed` | core/complib/cl_obj.c:590-615 | during a destruction, a link that disappears led to an object freed since |
| `ObjectDestroy.ReachableOwned` | core/complib/cl_obj.c:373-398 | in every reachable state a relation that names a parent is on the list of some child |
| `MadSend.ReportedStatus` | core/al/al_mad.c:3073-3148 | a timeout is reported exactly for an expired send that has no retries left and was not cancelled; a cancel only for a cancelled or stopped send without a response; success only with a response or with everything acknowledged |
| `MadSend.HandleInWindow` | core/al/al_mad.c:2859-2905 | every event keeps the window rules, and a segment posted by it is above ack_seg and at most seg_limit, which is at most total_seg |
| `MadSend.AlwaysInWindow` | core/al/al_mad.c:2859-2905 | for every sequence of events, with acknowledgements of any contents, every segment transmitted, the first one included, is inside the window of that moment |
| `MadSend.SendsWindow` | core/al/al_mad.c:1962-1973 | from a segment that is with the queue pair, successful completions alone make the send transmit the rest of its window, exactly the segments from cur_seg to seg_limit in order, and go idle only then |
| `MadSend.AckSetsWindow` | core/al/al_mad.c:2858-2881 | an acknowledgement that is not old sets the window to the lesser of what it tells and the number of segments; an old one changes nothing |
| `MadSend.RetryTransmits` | core/al/al_mad.c:3106-3136 | an idle send whose time is up, not cancelled and with retries left, is posted again for exactly one retry: the whole MAD, or the segment after the last one acknowledged; if its window is acknowledged, it goes on waiting |
| `MadSend.RetriesUsed` | core/al/al_mad.c:3106-3144 | over every run in which no MAD arrives, a send that ends in a timeout was posted by the timer once for each of its retries, or never if its window was acknowledged |
| `MadSend.TransmittedForEachRetry` | core/al/al_mad.c:3062-3144 | over every run in which no MAD arrives, a send without RMPP that ends in a timeout was transmitted exactly once more than it had retries |
| `MadSend.CancelTakesEffect` | core/al/al_mad.c:1838-1842 | over every run in which no MAD arrives, a send that was cancelled or stopped is not transmitted again, and its next completion, or the next run of the timer if it is idle, ends it as cancelled |
| `MadSend.InternalEnds` | core/al/al_mad.c:1936-1946 | a send of the service itself ends with its first completion |
| `MadSend.PatienceDrops` | core/al/al_mad.c:1949-1984 | each completion or timeout that a send waits for lowers the measure made of retries, segments left and the request outstanding |
| `MadSend.Terminates` | core/al/al_mad.c:3062-3144 | when no MAD arrives, a send leaves the list after a bounded number of completions and timeouts, whatever cancels come in between |
| `MadService.InvStep` | core/al/al_mad.c:1403-1415 | accepting, completing, acknowledging, stopping, answering, cancelling, timing out and reporting sends, and every way a received element can take, keep all the invariants below |
| `MadService.HandleFacts` | core/al/al_mad.c:1934-1985 | which events hand the work request to the dispatcher, and which leave it with the queue pair |
| `MadService.ReportedOnce` | core/al/al_mad.c:2002-2060 | in every reachable state each send was reported at most once, its structure released exactly then, and internal sends never reported |
| `MadService.WorkRequestsOwned` | core/al/al_mad.c:1625-1637 | in every reachable state the queue pair has the work request of exactly the sends whose retry time is MAX_TIME, once, and only those keep a response |
| `MadService.DataPlaces` | core/al/al_mad.c:2383-2523 | whatever is tracked, expected and available, a data segment is put back at exactly one of the two places that put it, or heads a reassembly, or completes one; the element that headed the reassembly is handed on or kept |
| `MadService.SegmentTaken` | core/al/al_mad.c:2435-2523 | for every data segment the status, and what becomes of it: put back unless it is the one its reassembly expects, or the first one of a new one that can be tracked; the last one yields the element of the first with the whole MAD |
| `MadService.ReassemblyGivenUp` | core/al/al_mad.c:3186-3206 | a reassembly whose time is up is given up, the element that headed it goes back to its pool, and every other one goes on |
| `MadService.AcceptedSend` | core/al/al_mad.c:1403-1415 | a new send goes to the end of the list and its work request to the dispatcher |
| `MadService.DisposedOnce` | core/al/al_mad.c:2175-2308 | in every reachable state each received element is in exactly one place: in a thread's hand, heading one reassembly, kept as a response, or disposed of once |
| `MadService.Service.MatchRecv` | core/al/al_mad.c:2127-2157 | returns the first send of the list that has the transaction ID and is not internal, or none exactly if there is none |
| `MadService.Service.ProcessRecvResp` | core/al/al_mad.c:2244-2308 | the response goes to its pool, or replaces the response of an active send, or completes the matching send with success |
| `MadService.Service.CheckSendQueue` | core/al/al_mad.c:3042-3167 | every send of the list is left alone while it is active or its time is not up, reported as cancelled if it was, reported as timed out if it has no retries left, and otherwise has one retry less and is posted again if there is something to send |
| `MadDispatch.InvStep` | core/al/al_mad.c:484-873 | registration, queueing, posting, completion, flush and callback keep the reference counts, the queues and the routing right |
| `MadDispatch.SlotNotReassigned` | core/al/al_mad.c:484-533 | a slot is given to a service only when no request of it is outstanding and no thread is about to release it |
| `MadDispatch.InOneQueue` | core/al/al_qp.c:1779-1843 | in every reachable state an outstanding request is in exactly one of to_send_queue, send_queue and done |
| `MadDispatch.CompletedToIssuer` | core/al/al_mad.c:835-873 | every completion and flush goes to the service that queued the request, with the header as it was |
| `MadDispatch.SlotKept` | core/al/al_mad.c:725-765 | until it deregisters, a service keeps its slot over every run |
| `MadDispatch.RegistrantOwns` | core/al/al_mad.c:484-533 | a request queued through a slot, at any time between the registration of a service there and its deregistration, is owned by that service |
| `MadDispatch.DeregisteredSlot` | core/al/al_mad.c:724-765 | after a deregistration the slot is free exactly if no request of it is outstanding and no thread is about to release it |
| `MadDispatch.QueuedHeader` | core/al/al_mad.c:770-818 | a request joins the end of the queue; its MAD goes out with the slot in the AL half of the transaction ID and the user's half kept, or as it is if it is a response or of the communication manager |
| `MadDispatch.RoutedByTid` | core/al/al_mad.c:900-1008 | exactly the responses to others than the communication manager are routed by transaction ID, and only to a slot that something refers to |
| `MadDispatch.ResponseReachesIssuer` | core/al/al_mad.c:881-1020 | a response with the transaction ID under which a request went out is routed to the service that queued it, as long as that service does not deregister, with the user's half of the ID |
| `MadDispatch.AnswerReachesIssuer` | core/al/al_mad.c:770-1046 | between two dispatchers: an answer queued under the ID of the request goes out under exactly that ID, from whatever slot, and reaches the service that had asked, as long as it does not deregister |
| `MadQueues.MadQp.RegisterClient` | core/al/al_mad.c:469-533 | takes the first slot without references, or a new one, or fails; a failure to track the service comes after the vector has grown and leaves only the unused slot |
| `MadQueues.MadQp.ResumeSends` | core/al/al_qp.c:1797-1843 | moves from to_send_queue to send_queue, in order, exactly as many requests as the hardware takes; nothing once destruction has begun |
| `MadQueues.MadQp.FlushSends` | core/al/al_qp.c:1188-1199 | completes every request of both queues exactly once, posted ones first, in order |
| `MadQueues.RecvQueue.PostRecvs` | core/al/al_qp.c:1898-1946 | posts exactly as many receives as the limit, the pool and the hardware allow, in order; an element that the hardware refused goes back; the depth stays the number of elements the hardware has |
| `MadQueues.RecvQueue.Completed` | core/al/al_qp.c:2029-2047 | a used element leaves the queue, once, and as many are posted in its place as can be |
| `RmppFormat.TotalSegments` | core/al/al_mad.c:1484-1496 | at least one segment, and the least number that holds all the data |
| `RmppFormat.BuildSegment` | core/al/al_mad.c:1722-1756 | the send buffer holds the header of the MAD and the data of the segment, filled up with zeros |
| `RmppFormat.NothingToSend` | core/al/al_mad.c:1740-1746 | a segment begins where the MAD ends if and only if the MAD is just its header |
| `RmppFormat.JoinedSegments` | core/al/al_mad.c:1738-1756 | the data of the first n segments joined is the start of the data of the MAD |
| `RmppFormat.CutAndJoin` | core/al/al_mad.c:1722-1756 | cutting a MAD into segments and joining them gives back its data |
| `RmppFormat.SizeRestored` | core/al/al_mad.c:1668-1684 | the size computed from the last segment is the size sent if and only if the MAD is of the SA class; otherwise it is larger by the RMPP header |
| `RmppFormat.HeaderMeans` | core/al/al_mad.c:1640-1686 | number and flags of a segment; the payload length of the last one is what it carries, for other classes than SA with the RMPP header counted in, and that of the first one of several is what all of them carry |
| `RmppReceive.WindowKept` | core/al/al_mad.c:2702-2726 | expected_seg stays inside seg_limit after a segment that is not the last one if and only if the window was not used up or the buffer could be grown |
| `RmppReceive.SegmentFits` | core/al/al_mad.c:2659-2679 | the data of every segment inside the window fits the buffer as it was grown |
| `RmppReceive.PastTheWindow` | core/al/al_mad.c:2645-2682 | exactly which segments fit a buffer of w windows: for the SA class some past the window do, for others none |
| `RmppReceive.Reassembly.constructor` | core/al/al_mad.c:2576-2601 | a reassembly starts with segment 1 expected, in the buffer of the first element |
| `RmppReceive.Reassembly.Resize` | core/al/kernel/al_mad_pool.c:1020-1060 | the MAD is in a buffer of the new size with its data unchanged |
| `RmppReceive.Reassembly.Store` | core/al/al_mad.c:2656-2682 | the data of the segment is behind that of the earlier ones, which stay |
| `RmppReceive.Reassembly.ProcessSegment` | core/al/al_mad.c:2629-2735 | for every expected segment that fits, inside the window or past it: every copy is inside the buffer, the buffer holds the data of all segments so far in order, an acknowledgement of this segment is sent exactly if it is the last one or the window could be enlarged, with the new window, and the final size is as specified |
| `RmppTransfer.InvStep` | core/al/al_mad.c:2435-2523 | every arrival, completion, timeout and cancel on either side keeps what is on the wire, in the reassembly and acknowledged consistent with the one MAD |
| `RmppTransfer.DeliveredIntact` | core/al/al_mad.c:2645-2701 | over every loss, duplication and reordering, a MAD reported as complete has exactly the data sent, and its size is the size sent exactly for the SA class |
| `RmppTransfer.SuccessMeansDelivered` | core/al/al_mad.c:2065-2118 | a send reported as successful without a response has been reassembled completely by the receiver |
| `RmppTransfer.AlwaysRoom` | core/al/al_mad.c:2716-2726 | as long as the buffer could be grown, expected_seg is at least 1 and at most seg_limit in every reachable state |
| `RmppTransfer.CanStillSucceed` | core/al/al_mad.c:2832-2928 | from every reachable state whose send is under way, not cancelled and without a response, some continuation delivers the MAD and, if no response is expected, reports success: the two windows never block each other for good |
| `RmppTransfer.GivesUp` | core/al/al_mad.c:1448-1470 | a segmented MAD that nobody answers is sent again as often as its user asked for, or five times, before it times out |
| `RmppLossless.GoodMove` | core/al/al_mad.c:1962-1973 | while nothing is lost, sender and receiver stay in step: what is in flight are the next segments in order, the sender has the window of the receiver or its acknowledgement is on its way, and it is idle only with its window used up; every completion and arrival is progress |
| `RmppLossless.GetsThrough` | core/al/al_mad.c:2629-2928 | if nothing is lost, repeated or reordered and the buffer can be grown, then in whatever order completions and arrivals come, every transfer ends within four moves per segment, without a timeout or a second transmission, with the MAD delivered once and success reported, or the response awaited |
| `RmppTransfer.OverrunMeansNotGrown` | core/al/al_mad.c:2645-2682 | in every reachable state, if the expected segment is on the wire and does not fit the buffer, the buffer could not be grown, the MAD has several segments, and the segment is past the window |
| `RmppTransfer.OverrunFollows` | core/al/al_mad.c:2780-2794 | from every reachable state with the window used up and no room for the next segment, the repeated acknowledgement, which asks for one more segment, can bring the sender to send it |
| `RmppTransfer.CanOverrun` | core/al/al_mad.c:2713-2726 | for a MAD of several segments, from every reachable state whose send is under way, not cancelled and without a response, some continuation puts a segment on the wire that is the expected one and does not fit |
| `RmppTransfer.OverrunExactly` | core/al/al_mad.c:2629-2735 | a MAD can run into this if and only if it has at least two segments |
| `RequestManager.ReqMgr.Get` | core/complib/cl_reqmgr.c:157-230 | grants at once exactly if nothing is queued and enough is available, a part only if allowed and nothing is queued; otherwise queues, with the mark to take objects piecemeal exactly in that case, or refuses; every grant is an enabled step of the ledger |
| `RequestManager.ReqMgr.Resume` | core/complib/cl_reqmgr.c:234-286 | serves only the request that has waited longest, never more than available, and dequeues it exactly when its grants add up to what it asked for; every grant is an enabled step of the ledger |
| `RequestManager.FirstComeFirstServed` | core/complib/cl_reqmgr.c:157-286 | after every run of gets and resumes, nothing was granted to a request behind a queued one, and one no longer queued got exactly what it asked for |
| `RequestManager.AllOrNothing` | core/complib/cl_reqmgr.c:157-286 | after every run a request that does not take objects piecemeal has been given nothing or all it asked for |
| `RequestManager.ResumedNext` | core/complib/cl_reqmgr.c:196-275 | a get and a resume: a first request that takes what there is gets that, and then again what there is up to what it lacks; any other gets nothing until all of it is there |
| `RequestManager.BehindAnother` | core/complib/cl_reqmgr.c:209-218 | a request behind another one is queued for all it asked for and does not take objects piecemeal, whatever it said |
| `RequestManager.ServedPiecemeal` | core/complib/cl_reqmgr.c:258-275 | over any number of resumes, a request that takes objects piecemeal is given all there is each time until that makes up what it lacks |

## Left out

- QuickMap.QMap.GetNext: `cl_fmap_get_next` calls a comparison function of the user; the model compares 64-bit keys, as `cl_qmap` does.
- PooledMap.Delta: reverts in one place after any of the three loops fails, where the source repeats the call after each move.
- PooledMap.Merge: does not say what is left when a NULL object that the destination lacks meets a shortage of items; `PooledMap.TakeOver` says it for each entry.
- PooledMap.CMap: the rest of the record around each item is a table from items to pool objects and user objects; `cl_map_get`, `cl_map_remove`, `cl_map_remove_all` and the apply and find functions of `cl_map` are not modelled.
- RmppTransfer.DeliveredIntact: says nothing about the header bytes of the reassembled MAD, nor that a MAD is delivered only once; a late duplicate of segment 1 starts a new reassembly. Runs end where a segment arrives that does not fit a buffer which could not be grown; `RmppTransfer.OverrunExactly` says for which MADs there are such runs.
- RmppTransfer.InvStep: a segment that does not fit the buffer has no step.
- RmppTransfer: one transfer at a time; the lookup of a reassembly by transaction ID, class, version, method, LID and QP is the identity of the transfer.
- RmppReceive.Reassembly.ProcessSegment: requires that the segment fits the buffer, which is weaker than the assertion in the source; a copy beyond the buffer has no meaning to model.
- MadSend, RmppFormat: segment numbers and sizes are unbounded, so that 32-bit wrap-around is not modelled; a MAD is at least as long as its header.
- MadService: the MAD elements that carry acknowledgements are not followed; an acknowledgement is any event with any contents. Retry times are only active or expired; doubling and jitter are left out, and so is `ib_delay_mad`.
- MadDispatch: unsolicited MADs, which are routed by version, class and method, and client IDs beyond 32 bits are left out.
- MadQueues.MadQp.FlushSends: services do not queue further requests from the flush callbacks.
- ObjectRefs: the destruction type that stays in the parent lists until it is freed is left out; callers are trusted to hold a reference on what they pass, and not to remove the relation at which a walk stands.
- ObjectRefs.RemoveRelStep: no walk stands at the relation, the condition that `ObjectRefs.WalkLosesItsPlace` shows to be exact; what the source does otherwise, through a parent pointer that is gone, has no meaning to model.
- ObjectRefs.InvStep: one pass of the unlinking walk, from reading the relation to reading the one before it, is one step.
- ObjectDestroy.Graph.Destroy: one thread, objects of type `CL_DESTROY_SYNC` only, no references held outside the graph; asynchronous destruction is covered by the runs of `ObjectRefs`.
- Pool.ObjectPool.constructor: component sizes and memory blocks are left out, objects are opaque; `Init` is the part of the initialization that creates objects.
- The other two copies of the tree, `cl_rbmap` and `cl_fmap`, which share the algorithm; of the latter only `cl_fmap_get_next` is modelled.
- Verbs calls, device control interfaces, tracing and user-mode proxies.
- The simpler object destruction of `al_common.c`, which forces counts to zero after a timeout.
- Connection management bit fields, `cl_ptr_vector` and the array insertion of `cl_list`.
