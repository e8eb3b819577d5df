/** The block cache and the request book-keeping of the sync side of the node. */
module SyncCache {
  import opened Basics
  import opened BlockTree

  type Peer = string
  type RequestId = nat
  type ChildIndex = map<Root, seq<Root>>

  datatype Request = StatusRequest(peer: Peer) | BlocksByRoot(peer: Peer, roots: seq<Root>)
  datatype Entry = Entry(request: Request, createdAt: int)
  type Requests = map<RequestId, Entry>

  /** The allocation that fails while a block is cached, if one does. */
  datatype CacheFault = NoFault | BlockMapFull | ChildMapFull | ChildListFull

  /** The children index is the inverse of the parent links: nothing missing, nothing
      extra, no duplicates, no empty lists. */
  ghost predicate IsInverse(blocks: Blocks, children: ChildIndex) {
    (forall r :: r in blocks ==> blocks[r].parent in children && r in children[blocks[r].parent])
    && (forall p :: p in children ==> ListsChildrenOf(blocks, children[p], p))
  }

  ghost predicate ListsChildrenOf(blocks: Blocks, kids: seq<Root>, p: Root) {
    kids != [] && NoDup(kids)
    && forall i :: 0 <= i < |kids| ==> kids[i] in blocks && blocks[kids[i]].parent == p
  }

  /** Some outstanding request asks for the root. */
  ghost predicate AskedFor(requests: Requests, root: Root) {
    exists id :: id in requests && requests[id].request.BlocksByRoot? && root in requests[id].request.roots
  }

  ghost predicate AllAskedFor(pending: map<Root, nat>, requests: Requests) {
    forall r :: r in pending ==> AskedFor(requests, r)
  }

  function SwapRemove<T>(s: seq<T>, i: nat): (r: seq<T>)
    requires i < |s|
  {
    s[..|s| - 1][..i] + (if i == |s| - 1 then [] else [s[|s| - 1]] + s[i + 1..|s| - 1])
  }

  /** Swapping the last element into the hole loses the removed element and no other. */
  lemma SwapRemoveKeepsOthers<T>(s: seq<T>, i: nat)
    requires i < |s| && NoDup(s)
    ensures NoDup(SwapRemove(s, i))
    ensures Elements(SwapRemove(s, i)) == Elements(s) - {s[i]}
  {
    var r, last := SwapRemove(s, i), |s| - 1;
    assert |r| == last;
    assert forall j :: 0 <= j < last ==> r[j] == if j == i then s[last] else s[j];
    forall x | x in s && x != s[i] ensures x in r {
      var j :| 0 <= j < |s| && s[j] == x;
      assert if j == last then r[i] == x else r[j] == x;
    }
  }

  /** The roots that the given requests ask for. */
  ghost function RootsOf(requests: Requests, ids: set<RequestId>): (roots: set<Root>) {
    set id, r | id in ids && id in requests && requests[id].request.BlocksByRoot? && r in requests[id].request.roots :: r
  }

  /** A request that has waited at least `timeout`. */
  predicate Expired(e: Entry, now: int, timeout: int) {
    now - e.createdAt >= timeout
  }

  function TimedOut(requests: Requests, now: int, timeout: int): (ids: set<RequestId>) {
    set id | id in requests && Expired(requests[id], now, timeout)
  }

  /** The requests in `gone` are off the books, the others are as they were, and what is new
      asks for blocks, was made at `at` and has an id above `base`. */
  ghost predicate Swept(before: Requests, gone: set<RequestId>, now: Requests, base: RequestId, at: int) {
    (forall id :: id in before && id !in gone ==> id in now && now[id] == before[id])
    && (forall id :: id in now && id <= base ==> id in before && id !in gone && now[id] == before[id])
    && (forall id :: id in now && id > base ==> now[id].request.BlocksByRoot? && now[id].createdAt == at)
  }

  function Marked(roots: seq<Root>, depth: nat): (m: map<Root, nat>) {
    map x | x in roots :: depth
  }

  /** The allocation for the root at `fault` is needed, and fails. */
  predicate TrackingFails(pending: map<Root, nat>, roots: seq<Root>, fault: Option<nat>) {
    fault.Some? && fault.value < |roots|
    && roots[fault.value] !in pending && roots[fault.value] !in roots[..fault.value]
  }

  /** Which allocations of a prune fail: the one for its start, the one for the ancestor
      above the given height, and those for some of the children. */
  datatype PruneFault = PruneFault(noStart: bool, upTo: Option<nat>, lost: set<Root>)

  const NO_FAULT: PruneFault := PruneFault(false, None, {})

  /** The backend's answer to a request, and the root whose tracking fails, if one does. */
  datatype SendOutcome = NotSent | Sent(id: RequestId, untracked: Option<nat>)
  /** How asking for a root again goes: whether the fork choice has the block, whether there
      is memory to list the root, the peer that is picked, whether the request is sent, and
      whether the root then cannot be marked. */
  datatype Answer = Answer(known: bool, memory: bool, peer: Option<Peer>, sent: bool, untracked: bool)
  datatype SendResult = NoBlockRootsRequested | SendFailed | TrackingFailed | Requested(id: RequestId)

  /** What a prune takes: the prune set, or when allocations fail a part of it. Nothing goes
      without the start, and below what goes every child does but those passed over and those
      that could not be noted. */
  ghost predicate IsPrune(blocks: Blocks, root: Root, fc: Option<Checkpoint>, fault: PruneFault, gone: set<Root>)
    requires Grounded(blocks, root)
  {
    gone <= PruneSet(blocks, root, fc)
    && (fault == NO_FAULT ==> gone == PruneSet(blocks, root, fc))
    && (root in gone <==> !fault.noStart && !(fc.Some? && root == fc.value.root))
    && (gone != {} ==> root in gone)
    && forall c :: c in blocks && blocks[c].parent in gone ==> c in gone || PassedOver(blocks, fc, c) || c in fault.lost
  }

  lemma PruneTakesPart(blocks: Blocks, root: Root, fc: Option<Checkpoint>, fault: PruneFault, gone: set<Root>)
    requires Grounded(blocks, root) && IsPrune(blocks, root, fc, fault, gone)
    ensures gone <= PruneSet(blocks, root, fc)
    ensures !fault.noStart ==> root in gone || (fc.Some? && root == fc.value.root)
  {}

  /** The roots of a list whose prune starts. */
  ghost function Started(roots: seq<Root>, faults: Root -> PruneFault): (s: set<Root>) {
    set r | r in roots && !faults(r).noStart
  }

  lemma StartedSnoc(roots: seq<Root>, i: nat, faults: Root -> PruneFault)
    requires i < |roots|
    ensures Started(roots[..i + 1], faults) == Started(roots[..i], faults) + if faults(roots[i]).noStart then {} else {roots[i]}
  {
    assert roots[..i + 1] == roots[..i] + [roots[i]];
  }

  /** Some block at or before the finalized slot shares its tree with the block. */
  ghost predicate HasStaleRelative(blocks: Blocks, fc: Checkpoint, x: Root) {
    exists r :: r in blocks && blocks[r].slot <= fc.slot && Grounded(blocks, r) && SharesTree(blocks, r, x)
  }

  /** What is left of `blocks` is `now`: nothing of `done` but the finalized block, its
      subtree when slots grow, and every block without a stale relative. */
  ghost predicate PrunedSoFar(blocks: Blocks, now: Blocks, fc: Checkpoint, done: set<Root>) {
    now.Items <= blocks.Items
    && (forall r :: r in done && r != fc.root ==> r !in now)
    && (ShieldedBySlots(blocks, fc) ==> forall x :: x in blocks && Above(blocks, fc.root, x) ==> x in now)
    && (forall x :: x in blocks && x !in now ==> HasStaleRelative(blocks, fc, x))
  }

  ghost predicate ShieldedBySlots(blocks: Blocks, fc: Checkpoint) {
    SlotsGrow(blocks) && fc.root in blocks && blocks[fc.root].slot >= fc.slot
  }

  /** One prune more, which took `gone` out of its prune set. */
  lemma PrunedMore(blocks: Blocks, now: Blocks, fc: Checkpoint, done: set<Root>, root: Root, gone: set<Root>)
    requires PrunedSoFar(blocks, now, fc, done) && Grounded(now, root)
    requires root in blocks && blocks[root].slot <= fc.slot && Grounded(blocks, root)
    requires gone <= PruneSet(now, root, Some(fc))
    ensures PrunedSoFar(blocks, now - gone, fc, done)
    ensures root in gone || root == fc.root ==> PrunedSoFar(blocks, now - gone, fc, done + {root})
  {
    hide PruneSet, SlotsGrow, Above, HasStaleRelative;
    assert (now - gone).Items <= now.Items;
    PrunedAreRelatives(blocks, now, fc, root);
    if ShieldedBySlots(blocks, fc) { FinalizedTreeSurvives(blocks, now, root, fc); }
  }

  lemma PrunedAreRelatives(blocks: Blocks, now: Blocks, fc: Checkpoint, root: Root)
    requires now.Items <= blocks.Items && Grounded(now, root)
    requires root in blocks && blocks[root].slot <= fc.slot && Grounded(blocks, root)
    ensures forall x :: x in PruneSet(now, root, Some(fc)) ==> HasStaleRelative(blocks, fc, x)
  {
    hide PruneSet, SharesTree, Grounded;
    forall x | x in PruneSet(now, root, Some(fc)) ensures HasStaleRelative(blocks, fc, x) {
      PruneStaysInTree(blocks, now, root, Some(fc), x);
    }
  }

  lemma PrunedIsSubmap(blocks: Blocks, now: Blocks, fc: Checkpoint, done: set<Root>)
    requires PrunedSoFar(blocks, now, fc, done)
    ensures now.Items <= blocks.Items
  {}

  lemma StaleAreGone(blocks: Blocks, now: Blocks, fc: Checkpoint, roots: seq<Root>, skipped: set<Root>, faults: Root -> PruneFault)
    requires forall r :: r in roots <==> r in blocks && blocks[r].slot <= fc.slot && r !in skipped
    requires PrunedSoFar(blocks, now, fc, Started(roots, faults))
    ensures forall r :: r in now && now[r].slot <= fc.slot ==> r == fc.root || r in skipped || faults(r).noStart
  {
    forall r | r in now && now[r].slot <= fc.slot && r !in skipped && !faults(r).noStart ensures r == fc.root {
      assert (r, now[r]) in blocks.Items;
    }
  }

  lemma NothingGone<V>(m: map<Root, V>)
    ensures m - {} == m && m.Keys * {} == {}
  {}

  lemma DoomedArePruned(blocks: Blocks, root: Root, fc: Option<Checkpoint>, found: seq<Root>)
    requires Grounded(blocks, root) && !(fc.Some? && root == fc.value.root)
    requires forall x :: x in found ==> Doomed(blocks, root, fc, x)
    ensures Elements(found) <= PruneSet(blocks, root, fc)
  {}

  /** A walk that stopped because there is nothing cached above has met every ancestor. */
  lemma WalkedToTheTop(blocks: Blocks, root: Root, found: seq<Root>, current: Root, height: nat)
    requires Grounded(blocks, root) && Climb(blocks, root, height) == Some(current) && (current == root || current in blocks)
    requires !(current in blocks && blocks[current].parent in blocks)
    requires forall i: nat :: i <= height ==> Climb(blocks, root, i).Some? && Climb(blocks, root, i).value in found
    ensures TopOf(blocks, root) in found && forall a :: a in blocks && Above(blocks, a, root) ==> a in found
  {
    TopIsUnique(blocks, root, current, TopOf(blocks, root));
    forall a | a in blocks && Above(blocks, a, root) ensures a in found {
      var i: nat :| Climb(blocks, root, i) == Some(a);
      if i > height { NothingCachedAboveTop(blocks, root, current, height, i); }
    }
  }

  lemma DoomedFit(blocks: Blocks, root: Root, fc: Option<Checkpoint>, found: seq<Root>)
    requires Grounded(blocks, root) && NoDup(found) && forall x :: x in found ==> Doomed(blocks, root, fc, x)
    ensures |found| <= |blocks.Keys + {root}|
  {
    DistinctFit(found, blocks.Keys + {root});
  }

  class Network {
    var connectedPeers: set<Peer>
    var pendingRpcRequests: Requests
    var pendingBlockRoots: map<Root, nat>
    var fetchedBlocks: Blocks
    var fetchedBlockChildren: ChildIndex

    ghost predicate Valid()
      reads this
    {
      IsInverse(fetchedBlocks, fetchedBlockChildren)
      && AllAskedFor(pendingBlockRoots, pendingRpcRequests)
    }

    constructor ()
      ensures Valid()
      ensures fetchedBlocks == map[] && pendingBlockRoots == map[] && pendingRpcRequests == map[]
      ensures connectedPeers == {}
    {
      connectedPeers := {};
      pendingRpcRequests := map[];
      pendingBlockRoots := map[];
      fetchedBlocks := map[];
      fetchedBlockChildren := map[];
    }

    function GetChildrenOfBlock(parent: Root): (kids: seq<Root>)
      reads this
    {
      if parent in fetchedBlockChildren then fetchedBlockChildren[parent] else []
    }

    /** The block map tells duplicates; a failed insert is undone in both maps. */
    method CacheFetchedBlock(root: Root, block: Block, fault: CacheFault) returns (ok: bool)
      requires Valid()
      modifies `fetchedBlocks, `fetchedBlockChildren
      ensures Valid()
      ensures ok <==> root in old(fetchedBlocks) || fault.NoFault?
                      || (fault.ChildMapFull? && block.parent in old(fetchedBlockChildren))
      ensures fetchedBlocks == if ok && root !in old(fetchedBlocks) then old(fetchedBlocks)[root := block] else old(fetchedBlocks)
      ensures fetchedBlocks == old(fetchedBlocks) ==> fetchedBlockChildren == old(fetchedBlockChildren)
      ensures fetchedBlocks != old(fetchedBlocks) ==>
                fetchedBlockChildren == old(fetchedBlockChildren)[block.parent := old(GetChildrenOfBlock(block.parent)) + [root]]
    {
      hide IsInverse;
      if root in fetchedBlocks { return true; }
      if fault == BlockMapFull { return false; }
      fetchedBlocks := fetchedBlocks[root := block];
      var parent := block.parent;
      var created := parent !in fetchedBlockChildren;
      if created && fault == ChildMapFull {
        fetchedBlocks := fetchedBlocks - {root};
        assert fetchedBlocks == old(fetchedBlocks);
        return false;
      }
      if created { fetchedBlockChildren := fetchedBlockChildren[parent := []]; }
      if fault == ChildListFull {
        if created { fetchedBlockChildren := fetchedBlockChildren - {parent}; }
        fetchedBlocks := fetchedBlocks - {root};
        assert fetchedBlocks == old(fetchedBlocks);
        assert fetchedBlockChildren == old(fetchedBlockChildren);
        return false;
      }
      fetchedBlockChildren := fetchedBlockChildren[parent := fetchedBlockChildren[parent] + [root]];
      InverseAfterCache(old(fetchedBlocks), old(fetchedBlockChildren), root, block);
      assert fetchedBlockChildren == old(fetchedBlockChildren)[parent := old(GetChildrenOfBlock(parent)) + [root]];
      assert fetchedBlocks[root] == block;
      return true;
    }

    method RemoveFetchedBlock(root: Root) returns (removed: bool)
      requires Valid()
      modifies `fetchedBlocks, `fetchedBlockChildren
      ensures Valid()
      ensures removed <==> root in old(fetchedBlocks)
      ensures fetchedBlocks == old(fetchedBlocks) - {root}
    {
      if root !in fetchedBlocks {
        assert fetchedBlocks - {root} == fetchedBlocks;
        return false;
      }
      var parent := fetchedBlocks[root].parent;
      fetchedBlocks := fetchedBlocks - {root};
      var kids := fetchedBlockChildren[parent];
      var i := 0;
      while i < |kids| && kids[i] != root
        invariant 0 <= i <= |kids| && root !in kids[..i]
      {
        i := i + 1;
      }
      assert kids[..|kids|] == kids;
      SwapRemoveKeepsOthers(kids, i);
      InverseAfterRemove(old(fetchedBlocks), old(fetchedBlockChildren), root, SwapRemove(kids, i));
      kids := SwapRemove(kids, i);
      if kids == [] {
        fetchedBlockChildren := fetchedBlockChildren - {parent};
      } else {
        fetchedBlockChildren := fetchedBlockChildren[parent := kids];
      }
      return true;
    }

    method RemovePendingBlockRoot(root: Root) returns (removed: bool)
      modifies `pendingBlockRoots
      ensures removed <==> root in old(pendingBlockRoots)
      ensures pendingBlockRoots == old(pendingBlockRoots) - {root}
    {
      removed := root in pendingBlockRoots;
      pendingBlockRoots := pendingBlockRoots - {root};
    }

    /** The walk up: the start and its cached ancestors, in the order they are met, up to
        the first that cannot be noted. The loop ends because the cached ancestors do. */
    method CollectAncestors(root: Root, upTo: Option<nat>) returns (found: seq<Root>)
      requires Grounded(fetchedBlocks, root)
      ensures NoDup(found) && root in found
      ensures forall a :: a in found ==>
                (a == root || a in fetchedBlocks) && Above(fetchedBlocks, a, root)
                && Above(fetchedBlocks, TopOf(fetchedBlocks, root), a)
      ensures upTo.None? ==> TopOf(fetchedBlocks, root) in found
                             && forall a :: a in fetchedBlocks && Above(fetchedBlocks, a, root) ==> a in found
    {
      ghost var bound: nat :| Climb(fetchedBlocks, root, bound).None?;
      var height: nat := 0;
      found := [root];
      var current := root;
      AboveSelf(fetchedBlocks, root);
      while current in fetchedBlocks && fetchedBlocks[current].parent in fetchedBlocks && upTo != Some(height)
        invariant NoDup(found) && root in found && current in found
        invariant current == root || current in fetchedBlocks
        invariant Climb(fetchedBlocks, root, height) == Some(current)
        invariant forall i: nat :: i <= height ==> Climb(fetchedBlocks, root, i).Some? && Climb(fetchedBlocks, root, i).value in found
        invariant forall a :: a in found ==> (a == root || a in fetchedBlocks) && Above(fetchedBlocks, a, root)
        decreases bound - height
      {
        var parent := fetchedBlocks[current].parent;
        ClimbTwice(fetchedBlocks, root, height, 1);
        assert Climb(fetchedBlocks, current, 1) == Climb(fetchedBlocks, parent, 0) == Some(parent);
        ClimbBelow(fetchedBlocks, root, bound, height + 1);
        if parent !in found { found := found + [parent]; }
        current := parent;
        height := height + 1;
      }
      forall a | a in found ensures Above(fetchedBlocks, TopOf(fetchedBlocks, root), a) {
        TopIsHighest(fetchedBlocks, root, a);
      }
      if upTo.None? { WalkedToTheTop(fetchedBlocks, root, found, current, height); }
    }

    /** The walk down: the worklist grows while it is read. */
    method CollectDescendants(root: Root, fc: Option<Checkpoint>, start: seq<Root>, lost: set<Root>) returns (found: seq<Root>)
      requires Valid() && Grounded(fetchedBlocks, root)
      requires NoDup(start) && forall x :: x in start ==> Doomed(fetchedBlocks, root, fc, x)
      ensures NoDup(found) && start <= found
      ensures forall x :: x in found ==> Doomed(fetchedBlocks, root, fc, x)
      ensures forall c :: c in fetchedBlocks && fetchedBlocks[c].parent in found ==>
                c in found || PassedOver(fetchedBlocks, fc, c) || c in lost
    {
      hide Doomed, PassedOver, IsInverse, AllAskedFor, NoDup;
      found := start;
      ghost var universe := fetchedBlocks.Keys + {root};
      var i := 0;
      while i < |found|
        invariant 0 <= i <= |found| && NoDup(found) && start <= found
        invariant forall x :: x in found ==> Doomed(fetchedBlocks, root, fc, x)
        invariant forall c :: c in fetchedBlocks && fetchedBlocks[c].parent in found[..i] ==>
                    c in found || PassedOver(fetchedBlocks, fc, c) || c in lost
        decreases |universe| - i
      {
        DoomedFit(fetchedBlocks, root, fc, found);
        var next := AddChildren(root, fc, found, found[i], lost);
        assert next[..i] == found[..i] && next[..i + 1] == next[..i] + [found[i]];
        found := next;
        i := i + 1;
      }
      assert found[..i] == found;
    }

    method AddChildren(root: Root, fc: Option<Checkpoint>, found: seq<Root>, current: Root, lost: set<Root>) returns (next: seq<Root>)
      requires Valid() && Grounded(fetchedBlocks, root)
      requires NoDup(found) && current in found && forall x :: x in found ==> Doomed(fetchedBlocks, root, fc, x)
      ensures NoDup(next) && found <= next
      ensures forall x :: x in next ==> Doomed(fetchedBlocks, root, fc, x)
      ensures forall c :: c in fetchedBlocks && fetchedBlocks[c].parent == current ==>
                c in next || PassedOver(fetchedBlocks, fc, c) || c in lost
    {
      next := found;
      var kids := GetChildrenOfBlock(current);
      var j := 0;
      while j < |kids|
        invariant 0 <= j <= |kids| && NoDup(next) && found <= next
        invariant forall x :: x in next ==> Doomed(fetchedBlocks, root, fc, x)
        invariant forall m :: 0 <= m < j ==> kids[m] in next || PassedOver(fetchedBlocks, fc, kids[m]) || kids[m] in lost
      {
        var child := kids[j];
        assert ListsChildrenOf(fetchedBlocks, kids, current);
        var skip := fc.Some? && child in fetchedBlocks
                    && fetchedBlocks[child].slot >= fc.value.slot && child == fc.value.root;
        if !skip {
          ChildIsDoomed(fetchedBlocks, root, fc, current, child);
          if child !in next && child !in lost { next := next + [child]; }
        }
        j := j + 1;
      }
    }

    /** Prunes the chain around `root`: exactly the prune set leaves the cache and the
        pending roots, and the number of blocks that left is returned. When allocations
        fail a part of it leaves. */
    method PruneCachedBlocks(root: Root, fc: Option<Checkpoint>, fault: PruneFault) returns (pruned: nat, ghost gone: set<Root>)
      requires Valid() && Grounded(fetchedBlocks, root)
      modifies `fetchedBlocks, `fetchedBlockChildren, `pendingBlockRoots
      ensures Valid()
      ensures fetchedBlocks == old(fetchedBlocks) - gone && pendingBlockRoots == old(pendingBlockRoots) - gone
      ensures pruned == |old(fetchedBlocks).Keys * gone|
      ensures IsPrune(old(fetchedBlocks), root, fc, fault, gone)
    {
      gone := {};
      if (fc.Some? && root == fc.value.root) || fault.noStart {
        NothingGone(fetchedBlocks);
        NothingGone(pendingBlockRoots);
        return 0, gone;
      }
      var toRemove := CollectChain(root, fc, fault);
      gone := Elements(toRemove);
      pruned := RemoveAll(toRemove);
    }

    /** Both walks. */
    method CollectChain(root: Root, fc: Option<Checkpoint>, fault: PruneFault) returns (found: seq<Root>)
      requires Valid() && Grounded(fetchedBlocks, root) && !(fc.Some? && root == fc.value.root)
      ensures NoDup(found) && root in found
      ensures Elements(found) <= PruneSet(fetchedBlocks, root, fc)
      ensures fault.upTo.None? && fault.lost == {} ==> Elements(found) == PruneSet(fetchedBlocks, root, fc)
      ensures forall c :: c in fetchedBlocks && fetchedBlocks[c].parent in found ==>
                c in found || PassedOver(fetchedBlocks, fc, c) || c in fault.lost
    {
      var up := CollectAncestors(root, fault.upTo);
      forall x | x in up ensures Doomed(fetchedBlocks, root, fc, x) {
        if x == root { StartIsDoomed(fetchedBlocks, root, fc); } else { AncestorIsDoomed(fetchedBlocks, root, fc, x); }
      }
      found := CollectDescendants(root, fc, up, fault.lost);
      assert forall x :: x in up ==> x in found;
      DoomedArePruned(fetchedBlocks, root, fc, found);
      if fault.upTo.None? && fault.lost == {} { WalkIsPruneSet(fetchedBlocks, root, fc, Elements(found)); }
    }

    /** The prune that follows finalization: every block at or before the finalized slot is
        pruned with its chain. Only the finalized block itself can be left at such a slot,
        or one that could not be noted; when slots grow along parent links the finalized
        subtree is left; and a block that shares its tree with no block of such a slot is
        always left. */
    method PruneForFinalization(fc: Checkpoint, skipped: set<Root>, faults: Root -> PruneFault) returns (pruned: nat)
      requires Valid() && forall r :: r in fetchedBlocks ==> Grounded(fetchedBlocks, r)
      modifies `fetchedBlocks, `fetchedBlockChildren, `pendingBlockRoots
      ensures Valid()
      ensures fetchedBlocks.Items <= old(fetchedBlocks).Items
      ensures forall r :: r in fetchedBlocks && fetchedBlocks[r].slot <= fc.slot ==>
                r == fc.root || r in skipped || faults(r).noStart
      ensures ShieldedBySlots(old(fetchedBlocks), fc)
              ==> forall x :: x in old(fetchedBlocks) && Above(old(fetchedBlocks), fc.root, x) ==> x in fetchedBlocks
      ensures forall x :: x in old(fetchedBlocks) && x !in fetchedBlocks ==> HasStaleRelative(old(fetchedBlocks), fc, x)
      ensures pruned == |old(fetchedBlocks)| - |fetchedBlocks|
    {
      var roots := StaleRoots(fc, skipped);
      pruned := PruneEach(roots, fc, faults);
      StaleAreGone(old(fetchedBlocks), fetchedBlocks, fc, roots, skipped, faults);
    }

    /** The blocks at or before the finalized slot, less those that could not be noted. */
    method StaleRoots(fc: Checkpoint, skipped: set<Root>) returns (roots: seq<Root>)
      ensures forall r :: r in roots <==> r in fetchedBlocks && fetchedBlocks[r].slot <= fc.slot && r !in skipped
    {
      roots := [];
      var left := fetchedBlocks.Keys;
      while left != {}
        invariant left <= fetchedBlocks.Keys
        invariant forall r :: r in roots <==> r in fetchedBlocks.Keys - left && fetchedBlocks[r].slot <= fc.slot && r !in skipped
        decreases left
      {
        var r :| r in left;
        left := left - {r};
        if fetchedBlocks[r].slot <= fc.slot && r !in skipped { roots := roots + [r]; }
      }
    }

    method PruneEach(roots: seq<Root>, fc: Checkpoint, faults: Root -> PruneFault) returns (pruned: nat)
      requires Valid() && forall r :: r in roots ==> r in fetchedBlocks && fetchedBlocks[r].slot <= fc.slot && Grounded(fetchedBlocks, r)
      modifies `fetchedBlocks, `fetchedBlockChildren, `pendingBlockRoots
      ensures Valid()
      ensures PrunedSoFar(old(fetchedBlocks), fetchedBlocks, fc, Started(roots, faults))
      ensures pruned + |fetchedBlocks| == |old(fetchedBlocks)|
    {
      ghost var blocks := fetchedBlocks;
      pruned := 0;
      assert PrunedSoFar(blocks, fetchedBlocks, fc, Started(roots[..0], faults));
      hide PrunedSoFar, IsInverse, AllAskedFor, Grounded, Started;
      for i := 0 to |roots|
        invariant Valid() && PrunedSoFar(blocks, fetchedBlocks, fc, Started(roots[..i], faults))
        invariant pruned + |fetchedBlocks| == |blocks|
      {
        assert roots[i] in roots;
        var n := PruneStale(roots[i], fc, faults(roots[i]), blocks, Started(roots[..i], faults));
        StartedSnoc(roots, i, faults);
        pruned := pruned + n;
      }
      assert roots[..|roots|] == roots;
    }

    method PruneStale(root: Root, fc: Checkpoint, fault: PruneFault, ghost blocks: Blocks, ghost done: set<Root>)
      returns (n: nat)
      requires Valid() && PrunedSoFar(blocks, fetchedBlocks, fc, done)
      requires root in blocks && blocks[root].slot <= fc.slot && Grounded(blocks, root)
      modifies `fetchedBlocks, `fetchedBlockChildren, `pendingBlockRoots
      ensures Valid() && n + |fetchedBlocks| == |old(fetchedBlocks)|
      ensures PrunedSoFar(blocks, fetchedBlocks, fc, done + if fault.noStart then {} else {root})
    {
      hide IsInverse, AllAskedFor, PruneSet, PrunedSoFar, Grounded, IsPrune;
      ghost var before := fetchedBlocks;
      PrunedIsSubmap(blocks, before, fc, done);
      SubmapStaysGrounded(blocks, before, root);
      ghost var gone;
      n, gone := PruneCachedBlocks(root, Some(fc), fault);
      PruneTakesPart(before, root, Some(fc), fault, gone);
      PrunedMore(blocks, before, fc, done, root, gone);
      SizeWithout(before, gone);
      assert done + {} == done;
    }

    method Evict(root: Root) returns (removed: bool)
      requires Valid()
      modifies `fetchedBlocks, `fetchedBlockChildren, `pendingBlockRoots
      ensures Valid()
      ensures removed <==> root in old(fetchedBlocks)
      ensures fetchedBlocks == old(fetchedBlocks) - {root}
      ensures pendingBlockRoots == old(pendingBlockRoots) - {root}
    {
      removed := RemoveFetchedBlock(root);
      var _ := RemovePendingBlockRoot(root);
    }

    /** The first `i` of the collected roots have left; `count` of them were cached. */
    ghost predicate Removed(roots: seq<Root>, i: nat, count: nat, blocks: Blocks, pending: map<Root, nat>)
      requires i <= |roots|
      reads this
    {
      fetchedBlocks == blocks - Elements(roots[..i])
      && pendingBlockRoots == pending - Elements(roots[..i])
      && count == |blocks.Keys * Elements(roots[..i])|
    }

    method RemoveNext(roots: seq<Root>, i: nat, count: nat, ghost blocks: Blocks, ghost pending: map<Root, nat>)
      returns (next: nat)
      requires Valid() && NoDup(roots) && i < |roots| && Removed(roots, i, count, blocks, pending)
      modifies `fetchedBlocks, `fetchedBlockChildren, `pendingBlockRoots
      ensures Valid() && Removed(roots, i + 1, next, blocks, pending)
    {
      OneMoreElement(blocks.Keys, roots, i);
      MinusTwice(blocks, Elements(roots[..i]), roots[i]);
      MinusTwice(pending, Elements(roots[..i]), roots[i]);
      var removed := Evict(roots[i]);
      next := if removed then count + 1 else count;
    }

    method RemoveAll(roots: seq<Root>) returns (count: nat)
      requires Valid() && NoDup(roots)
      modifies `fetchedBlocks, `fetchedBlockChildren, `pendingBlockRoots
      ensures Valid()
      ensures fetchedBlocks == old(fetchedBlocks) - Elements(roots)
      ensures pendingBlockRoots == old(pendingBlockRoots) - Elements(roots)
      ensures count == |old(fetchedBlocks).Keys * Elements(roots)|
    {
      count := 0;
      NoElements(old(fetchedBlocks), roots);
      NoElements(old(pendingBlockRoots), roots);
      for i := 0 to |roots|
        invariant Valid() && Removed(roots, i, count, old(fetchedBlocks), old(pendingBlockRoots))
      {
        count := RemoveNext(roots, i, count, old(fetchedBlocks), old(pendingBlockRoots));
      }
      assert roots[..|roots|] == roots;
    }

    predicate HasPendingBlockRoot(root: Root)
      reads this
    {
      root in pendingBlockRoots
    }

    /** Some root is neither on its way nor here. */
    method ShouldRequestBlocksByRoot(roots: seq<Root>) returns (yes: bool)
      ensures yes <==> exists r :: r in roots && r !in pendingBlockRoots && r !in fetchedBlocks
    {
      for i := 0 to |roots|
        invariant forall j :: 0 <= j < i ==> roots[j] in pendingBlockRoots || roots[j] in fetchedBlocks
      {
        if !HasPendingBlockRoot(roots[i]) && roots[i] !in fetchedBlocks { return true; }
      }
      return false;
    }

    /** Takes the request off the books and with it every root it asked for. */
    method FinalizePendingRequest(id: RequestId)
      modifies `pendingRpcRequests, `pendingBlockRoots
      ensures old(Valid()) ==> Valid()
      ensures pendingRpcRequests == old(pendingRpcRequests) - {id}
      ensures pendingBlockRoots == old(pendingBlockRoots) - RootsOf(old(pendingRpcRequests), {id})
    {
      if id !in pendingRpcRequests {
        assert pendingRpcRequests - {id} == pendingRpcRequests;
        assert pendingBlockRoots - RootsOf(pendingRpcRequests, {id}) == pendingBlockRoots;
        return;
      }
      var entry := pendingRpcRequests[id];
      pendingRpcRequests := pendingRpcRequests - {id};
      if entry.request.BlocksByRoot? {
        ForgetRoots(entry.request.roots);
        assert RootsOf(old(pendingRpcRequests), {id}) == Elements(entry.request.roots);
      } else {
        assert pendingBlockRoots - RootsOf(old(pendingRpcRequests), {id}) == pendingBlockRoots;
      }
      if AllAskedFor(old(pendingBlockRoots), old(pendingRpcRequests)) {
        StillAskedFor(old(pendingBlockRoots), old(pendingRpcRequests), id);
      }
    }

    method ForgetRoots(roots: seq<Root>)
      modifies `pendingBlockRoots
      ensures pendingBlockRoots == old(pendingBlockRoots) - Elements(roots)
    {
      NoElements(pendingBlockRoots, roots);
      for i := 0 to |roots|
        invariant pendingBlockRoots == old(pendingBlockRoots) - Elements(roots[..i])
      {
        assert Elements(roots[..i + 1]) == Elements(roots[..i]) + {roots[i]};
        var _ := RemovePendingBlockRoot(roots[i]);
      }
      assert roots[..|roots|] == roots;
    }

    /** Books the request and marks its roots, keeping the depth of those marked before. An
        id that is still outstanding overwrites its entry, and then every marked root stays
        asked for exactly when the new request or another one asks for it. */
    method SendBlocksByRootRequest(peer: Peer, roots: seq<Root>, depth: nat, now: int, outcome: SendOutcome)
      returns (r: SendResult)
      requires Valid()
      modifies `pendingRpcRequests, `pendingBlockRoots
      ensures r == (if roots == [] then NoBlockRootsRequested
                    else if outcome.NotSent? then SendFailed
                    else if TrackingFails(old(pendingBlockRoots), roots, outcome.untracked) then TrackingFailed
                    else Requested(outcome.id))
      ensures pendingRpcRequests
              == (match r
                  case Requested(id) => old(pendingRpcRequests)[id := Entry(BlocksByRoot(peer, roots), now)]
                  case TrackingFailed => old(pendingRpcRequests) - {outcome.id}
                  case _ => old(pendingRpcRequests))
      ensures pendingBlockRoots
              == (match r
                  case Requested(_) => Marked(roots, depth) + old(pendingBlockRoots)
                  case TrackingFailed => old(pendingBlockRoots) - Elements(roots)
                  case _ => old(pendingBlockRoots))
      ensures Valid() <==> r.NoBlockRootsRequested? || r.SendFailed?
                           || NoneStranded(old(pendingBlockRoots), old(pendingRpcRequests), outcome.id, roots)
      ensures outcome.Sent? && outcome.id !in old(pendingRpcRequests) ==> Valid()
    {
      hide IsInverse, AllAskedFor;
      if roots == [] { return NoBlockRootsRequested; }
      if outcome.NotSent? { return SendFailed; }
      var id := outcome.id;
      ghost var e := Entry(BlocksByRoot(peer, roots), now);
      if id !in pendingRpcRequests { FreshStrandsNone(pendingBlockRoots, pendingRpcRequests, id, roots); }
      pendingRpcRequests := pendingRpcRequests[id := Entry(BlocksByRoot(peer, roots), now)];
      var failed := TrackRoots(roots, depth, outcome.untracked);
      if failed {
        FinalizePendingRequest(id);
        UndoneBooking(old(pendingRpcRequests), id, e);
        StrandedByUndoingIff(old(pendingBlockRoots), old(pendingRpcRequests), id, roots);
        return TrackingFailed;
      }
      StrandedIff(old(pendingBlockRoots), old(pendingRpcRequests), id, e, pendingBlockRoots);
      return Requested(id);
    }

    /** Marks the roots in order, up to the one whose tracking fails. */
    method TrackRoots(roots: seq<Root>, depth: nat, fault: Option<nat>) returns (failed: bool)
      modifies `pendingBlockRoots
      ensures failed == TrackingFails(old(pendingBlockRoots), roots, fault)
      ensures !failed ==> pendingBlockRoots == Marked(roots, depth) + old(pendingBlockRoots)
      ensures pendingBlockRoots - Elements(roots) == old(pendingBlockRoots) - Elements(roots)
      ensures pendingBlockRoots.Keys <= old(pendingBlockRoots).Keys + Elements(roots)
    {
      for i := 0 to |roots|
        invariant pendingBlockRoots == Marked(roots[..i], depth) + old(pendingBlockRoots)
        invariant fault.Some? && fault.value < i ==> !TrackingFails(old(pendingBlockRoots), roots, fault)
      {
        assert roots[..i + 1] == roots[..i] + [roots[i]];
        if !HasPendingBlockRoot(roots[i]) {
          if fault == Some(i) { return true; }
          pendingBlockRoots := pendingBlockRoots[roots[i] := depth];
        }
      }
      assert roots[..|roots|] == roots;
      return false;
    }

    /** The outstanding requests that name the peer, less those that could not be noted. */
    method RequestsOfPeer(peer: Peer, skipped: set<RequestId>) returns (ids: seq<RequestId>)
      ensures Elements(ids) == set id | id in pendingRpcRequests && pendingRpcRequests[id].request.peer == peer && id !in skipped
    {
      ids := [];
      var left := pendingRpcRequests.Keys;
      while left != {}
        invariant left <= pendingRpcRequests.Keys
        invariant Elements(ids) == set id | id in pendingRpcRequests.Keys - left && pendingRpcRequests[id].request.peer == peer && id !in skipped
        decreases left
      {
        var id :| id in left;
        left := left - {id};
        if pendingRpcRequests[id].request.peer == peer && id !in skipped {
          ids := ids + [id];
          assert Elements(ids) == Elements(ids[..|ids| - 1]) + {id};
        }
      }
    }

    /** The requests that have waited out the timeout, each once, or nothing when there is
        no room to list them all. */
    method GetTimedOutRequests(now: int, timeout: int, room: nat) returns (r: Option<seq<RequestId>>)
      ensures r.None? <==> |TimedOut(pendingRpcRequests, now, timeout)| > room
      ensures r.Some? ==> NoDup(r.value) && Elements(r.value) == TimedOut(pendingRpcRequests, now, timeout)
    {
      hide NoDup, Elements;
      var ids: seq<RequestId> := [];
      var left := pendingRpcRequests.Keys;
      NoneOf<RequestId>();
      ghost var all := TimedOut(pendingRpcRequests, now, timeout);
      while left != {}
        invariant left <= pendingRpcRequests.Keys && NoDup(ids) && |ids| <= room
        invariant Elements(ids) == all - left
        decreases left
      {
        var id :| id in left;
        left := left - {id};
        if Expired(pendingRpcRequests[id], now, timeout) {
          OneMoreOf(ids, id, all, left);
          if |ids| == room { return None; }
          ids := ids + [id];
        }
      }
      assert all - left == all;
      DistinctAre(ids);
      return Some(ids);
    }

    method FinalizeAll(ids: seq<RequestId>)
      requires Valid()
      modifies `pendingRpcRequests, `pendingBlockRoots
      ensures Valid()
      ensures pendingRpcRequests == old(pendingRpcRequests) - Elements(ids)
      ensures pendingBlockRoots == old(pendingBlockRoots) - RootsOf(old(pendingRpcRequests), Elements(ids))
    {
      NoElements(pendingRpcRequests, ids);
      assert RootsOf(pendingRpcRequests, Elements(ids[..0])) == {};
      for i := 0 to |ids|
        invariant Valid()
        invariant pendingRpcRequests == old(pendingRpcRequests) - Elements(ids[..i])
        invariant pendingBlockRoots == old(pendingBlockRoots) - RootsOf(old(pendingRpcRequests), Elements(ids[..i]))
      {
        FinalizedNext(old(pendingBlockRoots), old(pendingRpcRequests), ids, i);
        FinalizePendingRequest(ids[i]);
      }
      assert ids[..|ids|] == ids;
    }

    /** The peer is gone, no outstanding request names it but those that could not be noted,
        and what it was asked for is free to be asked of someone else. */
    method DisconnectPeer(peer: Peer, skipped: set<RequestId>) returns (was: bool)
      requires Valid()
      modifies `connectedPeers, `pendingRpcRequests, `pendingBlockRoots
      ensures Valid()
      ensures was <==> peer in old(connectedPeers)
      ensures connectedPeers == old(connectedPeers) - {peer}
      ensures was ==> pendingRpcRequests.Keys
                      == set id | id in old(pendingRpcRequests) && (old(pendingRpcRequests)[id].request.peer != peer || id in skipped)
      ensures forall id :: id in pendingRpcRequests ==> id in old(pendingRpcRequests) && pendingRpcRequests[id] == old(pendingRpcRequests)[id]
      ensures pendingBlockRoots
              == old(pendingBlockRoots) - RootsOf(old(pendingRpcRequests), old(pendingRpcRequests).Keys - pendingRpcRequests.Keys)
      ensures !was ==> pendingRpcRequests == old(pendingRpcRequests)
    {
      if peer !in connectedPeers {
        assert pendingBlockRoots - RootsOf(pendingRpcRequests, pendingRpcRequests.Keys - pendingRpcRequests.Keys) == pendingBlockRoots;
        return false;
      }
      connectedPeers := connectedPeers - {peer};
      var ids := RequestsOfPeer(peer, skipped);
      FinalizeAll(ids);
      assert old(pendingRpcRequests).Keys - pendingRpcRequests.Keys == Elements(ids);
      return true;
    }

    /** Asks for one root again, under the id the backend will give, unless the fork choice
        has the block or it is cached or on its way. */
    method FetchBlockByRoot(root: Root, depth: nat, at: int, id: RequestId, a: Answer) returns (asked: bool)
      requires Valid() && id !in pendingRpcRequests
      modifies `pendingRpcRequests, `pendingBlockRoots
      ensures Valid()
      ensures asked <==> !a.known && a.memory && root !in old(pendingBlockRoots) && root !in fetchedBlocks
                         && a.peer.Some? && a.sent && !a.untracked
      ensures if asked then
                pendingRpcRequests == old(pendingRpcRequests)[id := Entry(BlocksByRoot(a.peer.value, [root]), at)]
                && pendingBlockRoots == old(pendingBlockRoots)[root := depth]
              else pendingRpcRequests == old(pendingRpcRequests) && pendingBlockRoots == old(pendingBlockRoots)
    {
      hide IsInverse, AllAskedFor, Marked, Elements, TrackingFails, NoneStranded;
      if a.known || !a.memory { return false; }
      var should := ShouldRequestBlocksByRoot([root]);
      assert should <==> [root][0] !in pendingBlockRoots && [root][0] !in fetchedBlocks;
      if !should || a.peer.None? { return false; }
      var outcome := if a.sent then Sent(id, if a.untracked then Some(0) else None) else NotSent;
      var r := SendBlocksByRootRequest(a.peer.value, [root], depth, at, outcome);
      OneRoot(old(pendingBlockRoots), old(pendingRpcRequests), root, depth, id);
      return r.Requested?;
    }

    /** The sweep: every request that has waited out the timeout goes, and its roots are
        asked for again one by one. `base` is the last id the backend gave; `at` is the time
        of the new requests. */
    method SweepTimedOutRequests(now: int, timeout: int, room: nat, base: RequestId, at: int, answers: (RequestId, nat) -> Answer)
      returns (swept: bool)
      requires Valid() && forall id :: id in pendingRpcRequests ==> id <= base
      modifies `pendingRpcRequests, `pendingBlockRoots
      ensures Valid()
      ensures swept <==> |TimedOut(old(pendingRpcRequests), now, timeout)| <= room
      ensures !swept ==> pendingRpcRequests == old(pendingRpcRequests) && pendingBlockRoots == old(pendingBlockRoots)
      ensures swept ==> SweptUpTo(Sweep(old(pendingRpcRequests), old(pendingBlockRoots), fetchedBlocks.Keys,
                                        TimedOut(old(pendingRpcRequests), now, timeout), answers, base, at),
                                  TimedOut(old(pendingRpcRequests), now, timeout), pendingRpcRequests, pendingBlockRoots)
    {
      var list := GetTimedOutRequests(now, timeout, room);
      if list.None? { return false; }
      var ids := list.value;
      var last := base;
      ghost var w := Sweep(pendingRpcRequests, pendingBlockRoots, fetchedBlocks.Keys, Elements(ids), answers, base, at);
      NothingSwept(w);
      assert Elements(ids[..0]) == {};
      assert forall id :: id in Elements(ids) ==> id in w.before && id <= base;
      hide IsInverse, AllAskedFor, SweptUpTo, Elements, TimedOut;
      for i := 0 to |ids|
        invariant Valid() && base <= last && forall id :: id in pendingRpcRequests ==> id <= last
        invariant SweptUpTo(w, Elements(ids[..i]), pendingRpcRequests, pendingBlockRoots)
      {
        OneMoreElement({}, ids, i);
        AmongElements(ids, i);
        last := RetryTimedOut(ids[i], last, at, answers, w, Elements(ids[..i]));
      }
      assert ids[..|ids|] == ids;
      return true;
    }

    /** One request of the sweep: its roots and their depths are copied, it is finalized, and
        each root is asked for again. */
    method RetryTimedOut(id: RequestId, given: RequestId, at: int, answers: (RequestId, nat) -> Answer,
                         ghost w: Sweep, ghost done: set<RequestId>)
      returns (last: RequestId)
      requires Valid() && w.base <= given && forall x :: x in pendingRpcRequests ==> x <= given
      requires id in w.before && id <= w.base && id in w.timedOut && id !in done && done <= w.timedOut
      requires w.cached == fetchedBlocks.Keys && w.answers == answers && w.at == at
      requires SweptUpTo(w, done, pendingRpcRequests, pendingBlockRoots)
      modifies `pendingRpcRequests, `pendingBlockRoots
      ensures Valid() && given <= last && forall x :: x in pendingRpcRequests ==> x <= last
      ensures SweptUpTo(w, done + {id}, pendingRpcRequests, pendingBlockRoots)
    {
      hide IsInverse, AllAskedFor, SweptUpTo, RetriedUpTo, RootsOf;
      last := given;
      StillBooked(w, done, pendingRpcRequests, pendingBlockRoots, id);
      var entry := pendingRpcRequests[id];
      var roots, depths := [], [];
      if entry.request.BlocksByRoot? {
        var marked := pendingBlockRoots;
        roots := entry.request.roots;
        depths := seq(|roots|, j requires 0 <= j < |roots| => if roots[j] in marked then marked[roots[j]] else 0);
      }
      BeginRetry(w, done, pendingRpcRequests, pendingBlockRoots, id, depths);
      FinalizePendingRequest(id);
      for j := 0 to |roots|
        invariant Valid() && given <= last && forall x :: x in pendingRpcRequests ==> x <= last
        invariant RetriedUpTo(w, done, id, depths, j, pendingRpcRequests, pendingBlockRoots)
      {
        ghost var requests, marks := pendingRpcRequests, pendingBlockRoots;
        var asked := FetchBlockByRoot(roots[j], depths[j], at, last + 1, answers(id, j));
        if asked { last := last + 1; }
        StepRetry(w, done, id, depths, j, requests, marks, pendingRpcRequests, pendingBlockRoots, last);
      }
      EndRetry(w, done, id, depths, pendingRpcRequests, pendingBlockRoots);
    }
  }

  // ---------------------------------------------------------------- the sweep

  /** What a sweep starts from: the requests, the marked roots, the cached blocks, which
      requests have timed out, how asking again will go, the last id given and the time. */
  datatype Sweep = Sweep(
    before: Requests,
    marked: map<Root, nat>,
    cached: set<Root>,
    timedOut: set<RequestId>,
    answers: (RequestId, nat) -> Answer,
    base: RequestId,
    at: int)

  predicate Grants(a: Answer) {
    !a.known && a.memory && a.peer.Some? && a.sent && !a.untracked
  }

  function RootsIn(w: Sweep, id: RequestId): (roots: seq<Root>) {
    if id in w.before && w.before[id].request.BlocksByRoot? then w.before[id].request.roots else []
  }

  /** The root is not cached and every time it is asked for again this is granted. */
  ghost predicate Granted(w: Sweep, r: Root) {
    r !in w.cached
    && forall id, j :: id in w.timedOut && 0 <= j < |RootsIn(w, id)| && RootsIn(w, id)[j] == r ==> Grants(w.answers(id, j))
  }

  function DepthBefore(w: Sweep, r: Root): (depth: nat) {
    if r in w.marked then w.marked[r] else 0
  }

  /** The request asks for `r` alone, of the peer picked when `r` was asked for again on behalf
      of one of `done`. */
  ghost predicate IsRetry(w: Sweep, done: set<RequestId>, e: Entry, r: Root) {
    exists id, j :: id in done && 0 <= j < |RootsIn(w, id)| && RootsIn(w, id)[j] == r
      && Grants(w.answers(id, j)) && e == Entry(BlocksByRoot(w.answers(id, j).peer.value, [r]), w.at)
  }

  ghost predicate AskedAgain(w: Sweep, done: set<RequestId>, requests: Requests, r: Root) {
    exists x :: x in requests && x > w.base && IsRetry(w, done, requests[x], r)
  }

  /** Every request above `base` is such a retry of a root that is not cached. */
  ghost predicate OnlyRetries(w: Sweep, done: set<RequestId>, requests: Requests) {
    forall x :: x in requests && x > w.base ==> exists r :: r !in w.cached && IsRetry(w, done, requests[x], r)
  }

  ghost predicate AskedOf(w: Sweep, done: set<RequestId>, r: Root) {
    exists id :: id in done && r in RootsIn(w, id)
  }

  /** A granted root of a request that was swept is marked, at the depth it had, and asked for
      again; the mark of any other granted root is as it was. */
  ghost predicate RootSwept(w: Sweep, done: set<RequestId>, requests: Requests, pending: map<Root, nat>, r: Root) {
    if AskedOf(w, done, r) then r in pending && pending[r] == DepthBefore(w, r) && AskedAgain(w, done, requests, r)
    else (r in pending <==> r in w.marked) && (r in pending ==> pending[r] == w.marked[r])
  }

  ghost predicate SweptUpTo(w: Sweep, done: set<RequestId>, requests: Requests, pending: map<Root, nat>) {
    Swept(w.before, done, requests, w.base, w.at) && OnlyRetries(w, done, requests)
    && forall r :: Granted(w, r) ==> RootSwept(w, done, requests, pending, r)
  }

  /** The same in the middle of one request: the first `j` of its roots have been asked for
      again, the others are unmarked. */
  ghost predicate RootRetried(w: Sweep, done: set<RequestId>, id: RequestId, j: nat, requests: Requests, pending: map<Root, nat>, r: Root)
    requires j <= |RootsIn(w, id)|
  {
    if r in RootsIn(w, id)[..j] then r in pending && pending[r] == DepthBefore(w, r) && AskedAgain(w, done + {id}, requests, r)
    else if r in RootsIn(w, id) then r !in pending
    else RootSwept(w, done, requests, pending, r)
  }

  ghost predicate DepthsKnown(w: Sweep, id: RequestId, depths: seq<nat>) {
    |depths| == |RootsIn(w, id)|
    && forall k :: 0 <= k < |depths| && Granted(w, RootsIn(w, id)[k]) ==> depths[k] == DepthBefore(w, RootsIn(w, id)[k])
  }

  ghost predicate RetriedUpTo(w: Sweep, done: set<RequestId>, id: RequestId, depths: seq<nat>, j: nat,
                              requests: Requests, pending: map<Root, nat>)
  {
    j <= |RootsIn(w, id)| && DepthsKnown(w, id, depths)
    && Swept(w.before, done + {id}, requests, w.base, w.at) && OnlyRetries(w, done + {id}, requests)
    && forall r :: Granted(w, r) ==> RootRetried(w, done, id, j, requests, pending, r)
  }

  lemma NothingSwept(w: Sweep)
    requires forall id :: id in w.before ==> id <= w.base
    ensures SweptUpTo(w, {}, w.before, w.marked)
  {}

  lemma StillBooked(w: Sweep, done: set<RequestId>, requests: Requests, pending: map<Root, nat>, id: RequestId)
    requires SweptUpTo(w, done, requests, pending) && id in w.before && id !in done
    ensures id in requests && requests[id] == w.before[id]
  {}

  lemma RetryStaysRetry(w: Sweep, done: set<RequestId>, more: set<RequestId>, e: Entry, r: Root)
    requires IsRetry(w, done, e, r) && done <= more
    ensures IsRetry(w, more, e, r)
  {
    var id, j :| id in done && 0 <= j < |RootsIn(w, id)| && RootsIn(w, id)[j] == r
      && Grants(w.answers(id, j)) && e == Entry(BlocksByRoot(w.answers(id, j).peer.value, [r]), w.at);
    assert id in more;
  }

  /** What is above `base` stays when requests below go and others come. */
  lemma StillAskedAgain(w: Sweep, done: set<RequestId>, more: set<RequestId>, requests: Requests, later: Requests, r: Root)
    requires AskedAgain(w, done, requests, r) && done <= more
    requires forall x :: x in requests && x > w.base ==> x in later && later[x] == requests[x]
    ensures AskedAgain(w, more, later, r)
  {
    var x :| x in requests && x > w.base && IsRetry(w, done, requests[x], r);
    RetryStaysRetry(w, done, more, requests[x], r);
    assert later[x] == requests[x];
  }

  lemma StillOnlyRetries(w: Sweep, done: set<RequestId>, more: set<RequestId>, requests: Requests, later: Requests)
    requires OnlyRetries(w, done, requests) && done <= more
    requires forall x :: x in later && x > w.base ==> x in requests && later[x] == requests[x]
    ensures OnlyRetries(w, more, later)
  {
    forall x | x in later && x > w.base ensures exists r :: r !in w.cached && IsRetry(w, more, later[x], r) {
      var r :| r !in w.cached && IsRetry(w, done, requests[x], r);
      RetryStaysRetry(w, done, more, requests[x], r);
    }
  }

  lemma RootsOfOne(w: Sweep, requests: Requests, id: RequestId)
    requires id in requests && id in w.before && requests[id] == w.before[id]
    ensures RootsOf(requests, {id}) == Elements(RootsIn(w, id))
  {}

  lemma BeginRetry(w: Sweep, done: set<RequestId>, requests: Requests, pending: map<Root, nat>, id: RequestId, depths: seq<nat>)
    requires SweptUpTo(w, done, requests, pending) && id in w.before && id <= w.base && id !in done
    requires id in requests && requests[id] == w.before[id]
    requires |depths| == |RootsIn(w, id)|
    requires forall k :: 0 <= k < |depths| ==>
               depths[k] == if RootsIn(w, id)[k] in pending then pending[RootsIn(w, id)[k]] else 0
    ensures RetriedUpTo(w, done, id, depths, 0, requests - {id}, pending - RootsOf(requests, {id}))
  {
    hide Granted, IsRetry;
    var later, marks := requests - {id}, pending - RootsOf(requests, {id});
    RootsOfOne(w, requests, id);
    StillOnlyRetries(w, done, done + {id}, requests, later);
    forall k | 0 <= k < |depths| && Granted(w, RootsIn(w, id)[k]) ensures depths[k] == DepthBefore(w, RootsIn(w, id)[k]) {
      assert RootSwept(w, done, requests, pending, RootsIn(w, id)[k]);
    }
    forall r | Granted(w, r) ensures RootRetried(w, done, id, 0, later, marks, r) {
      assert RootSwept(w, done, requests, pending, r);
      if r !in RootsIn(w, id) && AskedOf(w, done, r) { StillAskedAgain(w, done, done, requests, later, r); }
    }
  }

  /** The root at `j` was asked for again under the id `last`, or was not and nothing changed. */
  ghost predicate Retries(w: Sweep, id: RequestId, depths: seq<nat>, j: nat, requests: Requests, pending: map<Root, nat>,
                          later: Requests, marks: map<Root, nat>, last: RequestId)
    requires j < |RootsIn(w, id)| == |depths|
  {
    var root := RootsIn(w, id)[j];
    if Grants(w.answers(id, j)) && root !in pending && root !in w.cached then
      last > w.base && last !in requests
      && later == requests[last := Entry(BlocksByRoot(w.answers(id, j).peer.value, [root]), w.at)] && marks == pending[root := depths[j]]
    else later == requests && marks == pending
  }

  lemma StepRetry(w: Sweep, done: set<RequestId>, id: RequestId, depths: seq<nat>, j: nat, requests: Requests, pending: map<Root, nat>,
                  later: Requests, marks: map<Root, nat>, last: RequestId)
    requires RetriedUpTo(w, done, id, depths, j, requests, pending) && j < |RootsIn(w, id)| && id in w.timedOut
    requires Retries(w, id, depths, j, requests, pending, later, marks, last)
    ensures RetriedUpTo(w, done, id, depths, j + 1, later, marks)
  {
    StepRequests(w, done, id, depths, j, requests, pending, later, marks, last);
    hide Granted, RootRetried, Swept, OnlyRetries, Retries;
    forall r | Granted(w, r) ensures RootRetried(w, done, id, j + 1, later, marks, r) {
      StepRoot(w, done, id, depths, j, requests, pending, later, marks, last, r);
    }
  }

  lemma StepRequests(w: Sweep, done: set<RequestId>, id: RequestId, depths: seq<nat>, j: nat, requests: Requests, pending: map<Root, nat>,
                     later: Requests, marks: map<Root, nat>, last: RequestId)
    requires j < |RootsIn(w, id)| == |depths| && Swept(w.before, done + {id}, requests, w.base, w.at) && OnlyRetries(w, done + {id}, requests)
    requires Retries(w, id, depths, j, requests, pending, later, marks, last)
    ensures Swept(w.before, done + {id}, later, w.base, w.at) && OnlyRetries(w, done + {id}, later)
    ensures later != requests ==> AskedAgain(w, done + {id}, later, RootsIn(w, id)[j])
  {
    var root := RootsIn(w, id)[j];
    if later != requests {
      assert id in done + {id} && IsRetry(w, done + {id}, later[last], root);
      NewIsRetry(w, done + {id}, requests, later, last, root);
    }
  }

  lemma StepRoot(w: Sweep, done: set<RequestId>, id: RequestId, depths: seq<nat>, j: nat, requests: Requests, pending: map<Root, nat>,
                 later: Requests, marks: map<Root, nat>, last: RequestId, r: Root)
    requires j < |RootsIn(w, id)| == |depths| && id in w.timedOut && Granted(w, r) && RootRetried(w, done, id, j, requests, pending, r)
    requires r == RootsIn(w, id)[j] ==> depths[j] == DepthBefore(w, r)
    requires Retries(w, id, depths, j, requests, pending, later, marks, last)
    requires later != requests ==> AskedAgain(w, done + {id}, later, RootsIn(w, id)[j])
    ensures RootRetried(w, done, id, j + 1, later, marks, r)
  {
    var root := RootsIn(w, id)[j];
    assert RootsIn(w, id)[..j + 1] == RootsIn(w, id)[..j] + [root];
    assert r == root ==> Grants(w.answers(id, j));
    hide AskedOf, Grants, AskedAgain, Granted, DepthBefore;
    if AskedAgain(w, done + {id}, requests, r) { StillAskedAgain(w, done + {id}, done + {id}, requests, later, r); }
    if AskedAgain(w, done, requests, r) { StillAskedAgain(w, done, done, requests, later, r); }
  }

  lemma NewIsRetry(w: Sweep, done: set<RequestId>, requests: Requests, later: Requests, last: RequestId, root: Root)
    requires OnlyRetries(w, done, requests) && last > w.base && last !in requests && last in later && later == requests[last := later[last]]
    requires root !in w.cached && IsRetry(w, done, later[last], root)
    ensures OnlyRetries(w, done, later) && AskedAgain(w, done, later, root)
  {
    hide IsRetry;
    forall x | x in later && x > w.base ensures exists r :: r !in w.cached && IsRetry(w, done, later[x], r) {
      if x != last { assert x in requests; }
    }
  }

  lemma EndRetry(w: Sweep, done: set<RequestId>, id: RequestId, depths: seq<nat>, requests: Requests, pending: map<Root, nat>)
    requires RetriedUpTo(w, done, id, depths, |RootsIn(w, id)|, requests, pending)
    ensures SweptUpTo(w, done + {id}, requests, pending)
  {
    hide IsRetry, Granted;
    var roots := RootsIn(w, id);
    assert roots[..|roots|] == roots;
    forall r | Granted(w, r) ensures RootSwept(w, done + {id}, requests, pending, r) {
      assert RootRetried(w, done, id, |roots|, requests, pending, r);
      assert AskedOf(w, done + {id}, r) <==> AskedOf(w, done, r) || r in roots by { AskedOfMore(w, done, id, r); }
      if r !in roots && AskedOf(w, done, r) { StillAskedAgain(w, done, done + {id}, requests, requests, r); }
    }
  }

  lemma AskedOfMore(w: Sweep, done: set<RequestId>, id: RequestId, r: Root)
    ensures AskedOf(w, done + {id}, r) <==> AskedOf(w, done, r) || r in RootsIn(w, id)
  {
    if AskedOf(w, done, r) {
      var x :| x in done && r in RootsIn(w, x);
      assert x in done + {id};
    }
    if r in RootsIn(w, id) { assert id in done + {id}; }
  }

  /** So after a sweep every root of a request that timed out, if it is not cached and asking
      for it again is granted, is marked at the depth it had and asked for alone by a new
      request to a peer that was picked for it. */
  lemma TimedOutRootsAreAskedAgain(w: Sweep, requests: Requests, pending: map<Root, nat>, id: RequestId, r: Root)
    requires SweptUpTo(w, w.timedOut, requests, pending)
    requires id in w.timedOut && r in RootsIn(w, id) && Granted(w, r)
    ensures r in pending && pending[r] == DepthBefore(w, r)
    ensures exists x, k, j :: x in requests && x > w.base && k in w.timedOut && 0 <= j < |RootsIn(w, k)| && RootsIn(w, k)[j] == r
              && requests[x] == Entry(BlocksByRoot(w.answers(k, j).peer.value, [r]), w.at)
  {
    assert RootSwept(w, w.timedOut, requests, pending, r);
    assert AskedOf(w, w.timedOut, r);
    var x :| x in requests && x > w.base && IsRetry(w, w.timedOut, requests[x], r);
    var k, j :| k in w.timedOut && 0 <= j < |RootsIn(w, k)| && RootsIn(w, k)[j] == r
      && Grants(w.answers(k, j)) && requests[x] == Entry(BlocksByRoot(w.answers(k, j).peer.value, [r]), w.at);
  }

  /** And every request on the books after a sweep is an old one that has not timed out, as it
      was, or asks for one root of a request that has, which is not cached and was granted. */
  lemma NothingElseIsAsked(w: Sweep, requests: Requests, pending: map<Root, nat>, x: RequestId)
    requires SweptUpTo(w, w.timedOut, requests, pending) && x in requests
    ensures x <= w.base ==> x in w.before && x !in w.timedOut && requests[x] == w.before[x]
    ensures x > w.base ==>
              exists k, j :: k in w.timedOut && 0 <= j < |RootsIn(w, k)| && RootsIn(w, k)[j] !in w.cached && Grants(w.answers(k, j))
                && requests[x] == Entry(BlocksByRoot(w.answers(k, j).peer.value, [RootsIn(w, k)[j]]), w.at)
  {
    if x > w.base {
      var r :| r !in w.cached && IsRetry(w, w.timedOut, requests[x], r);
      var k, j :| k in w.timedOut && 0 <= j < |RootsIn(w, k)| && RootsIn(w, k)[j] == r
        && Grants(w.answers(k, j)) && requests[x] == Entry(BlocksByRoot(w.answers(k, j).peer.value, [r]), w.at);
    }
  }

  /** Finalizing a request strands no root: those left are asked for by the others. */
  lemma StillAskedFor(pending: map<Root, nat>, requests: Requests, id: RequestId)
    requires AllAskedFor(pending, requests)
    ensures AllAskedFor(pending - RootsOf(requests, {id}), requests - {id})
  {
    forall r | r in pending - RootsOf(requests, {id}) ensures AskedFor(requests - {id}, r) {
      var j :| j in requests && requests[j].request.BlocksByRoot? && r in requests[j].request.roots;
      assert j != id;
      assert j in requests - {id};
    }
  }

  /** Every marked root is asked for by a request other than `id`, or is among `roots`. */
  ghost predicate NoneStranded(pending: map<Root, nat>, requests: Requests, id: RequestId, roots: seq<Root>) {
    forall r :: r in pending ==> r in roots || AskedFor(requests - {id}, r)
  }

  /** Marking one root that is not marked, under an id that is not outstanding. */
  lemma OneRoot(pending: map<Root, nat>, requests: Requests, root: Root, depth: nat, id: RequestId)
    requires root !in pending && id !in requests
    ensures Marked([root], depth) + pending == pending[root := depth]
    ensures pending - Elements([root]) == pending && requests - {id} == requests
    ensures TrackingFails(pending, [root], Some(0)) && !TrackingFails(pending, [root], None)
  {
    assert [root][..0] == [];
    assert Elements([root]) == {root};
  }

  lemma FreshStrandsNone(pending: map<Root, nat>, requests: Requests, id: RequestId, roots: seq<Root>)
    requires AllAskedFor(pending, requests) && id !in requests
    ensures NoneStranded(pending, requests, id, roots)
  {
    assert requests - {id} == requests;
  }

  lemma AskedAfterBooking(requests: Requests, id: RequestId, e: Entry, r: Root)
    requires e.request.BlocksByRoot?
    ensures AskedFor(requests[id := e], r) <==> r in e.request.roots || AskedFor(requests - {id}, r)
  {
    var booked := requests[id := e];
    if AskedFor(booked, r) {
      var j :| j in booked && booked[j].request.BlocksByRoot? && r in booked[j].request.roots;
      if j != id { assert j in requests - {id} && (requests - {id})[j] == booked[j]; }
    }
    if AskedFor(requests - {id}, r) {
      var j :| j in requests - {id} && requests[j].request.BlocksByRoot? && r in requests[j].request.roots;
      assert booked[j] == requests[j];
    }
    if r in e.request.roots { assert id in booked && booked[id] == e; }
  }

  /** After a request is booked under any id, fresh or reused, every marked root is still
      asked for if and only if none was stranded: each is among the new roots or another
      request asks for it. */
  lemma StrandedIff(pending: map<Root, nat>, requests: Requests, id: RequestId, e: Entry, marked: map<Root, nat>)
    requires e.request.BlocksByRoot? && pending.Keys <= marked.Keys <= pending.Keys + Elements(e.request.roots)
    ensures AllAskedFor(marked, requests[id := e]) <==> NoneStranded(pending, requests, id, e.request.roots)
  {
    forall r: Root ensures AskedFor(requests[id := e], r) <==> r in e.request.roots || AskedFor(requests - {id}, r) {
      AskedAfterBooking(requests, id, e, r);
    }
  }

  /** Such a case: a request for one root, and its id used again for another root. */
  lemma ReusedIdStrandsRoot(id: RequestId, peer: Peer, a: Root, b: Root, now: int)
    requires a != b
    ensures var requests: Requests := map[id := Entry(BlocksByRoot(peer, [a]), now)];
            AllAskedFor(map[a := 0], requests) && !NoneStranded(map[a := 0], requests, id, [b])
  {
    var requests: Requests := map[id := Entry(BlocksByRoot(peer, [a]), now)];
    assert id in requests && a in requests[id].request.roots;
    assert requests - {id} == map[];
    assert !AskedFor(map[], a);
  }

  lemma StrandedByUndoingIff(pending: map<Root, nat>, requests: Requests, id: RequestId, roots: seq<Root>)
    ensures AllAskedFor(pending - Elements(roots), requests - {id}) <==> NoneStranded(pending, requests, id, roots)
  {
    assert forall r :: r in pending - Elements(roots) <==> r in pending && r !in roots;
  }

  /** A marked root can be freed by finalizing outstanding requests if and only if one of
      them asks for it. A stranded root waits for its block, for a prune, or for a request
      that asks for it together with others. */
  lemma FinalizingFreesIff(pending: map<Root, nat>, requests: Requests, r: Root)
    requires r in pending
    ensures (exists ids: set<RequestId> :: r !in pending - RootsOf(requests, ids)) <==> AskedFor(requests, r)
  {
    if AskedFor(requests, r) {
      var id :| id in requests && requests[id].request.BlocksByRoot? && r in requests[id].request.roots;
      assert r in RootsOf(requests, {id});
    }
  }

  lemma UndoneBooking(requests: Requests, id: RequestId, e: Entry)
    requires e.request.BlocksByRoot?
    ensures requests[id := e] - {id} == requests - {id}
    ensures RootsOf(requests[id := e], {id}) == Elements(e.request.roots)
  {
    var booked := requests[id := e];
    forall r | r in e.request.roots ensures r in RootsOf(booked, {id}) {
      assert id in booked && booked[id] == e;
    }
  }

  lemma FinalizedNext(pending: map<Root, nat>, requests: Requests, ids: seq<RequestId>, i: nat)
    requires i < |ids|
    ensures var done, next := Elements(ids[..i]), Elements(ids[..i + 1]);
            requests - done - {ids[i]} == requests - next
            && pending - RootsOf(requests, done) - RootsOf(requests - done, {ids[i]}) == pending - RootsOf(requests, next)
  {
    var done, next, id := Elements(ids[..i]), Elements(ids[..i + 1]), ids[i];
    assert next == done + {id};
    forall r ensures r in RootsOf(requests, next) <==> r in RootsOf(requests, done) || r in RootsOf(requests - done, {id}) {
      if r in RootsOf(requests, next) && r !in RootsOf(requests, done) {
        var j :| j in next && j in requests && requests[j].request.BlocksByRoot? && r in requests[j].request.roots;
        assert j !in done && j == id && id in requests - done;
      }
      if r in RootsOf(requests - done, {id}) {
        assert id in requests && requests[id].request.BlocksByRoot? && r in requests[id].request.roots;
      }
    }
  }

  lemma NoneOf<T>()
    ensures NoDup<T>([]) && Elements<T>([]) == {}
  {}

  /** Listing one more of a set, of which `left` is still to come. */
  lemma OneMoreOf<T>(listed: seq<T>, x: T, all: set<T>, left: set<T>)
    requires NoDup(listed) && Elements(listed) == all - left - {x} && x in all && x !in left
    ensures NoDup(listed + [x]) && Elements(listed + [x]) == all - left && |listed| < |all|
  {
    assert x !in Elements(listed);
    assert Elements(listed + [x]) == Elements(listed) + {x};
    DistinctFit(listed + [x], all);
  }

  lemma NoElements<K, V>(m: map<K, V>, s: seq<K>)
    ensures m - Elements(s[..0]) == m && m.Keys * Elements(s[..0]) == {}
  {}

  lemma SizeWithout<K, V>(m: map<K, V>, gone: set<K>)
    ensures |m| == |m - gone| + |m.Keys * gone|
    ensures (m - gone).Items <= m.Items
  {
    assert m.Keys == (m - gone).Keys + m.Keys * gone;
    assert |m.Keys| == |(m - gone).Keys| + |m.Keys * gone|;
  }

  lemma MinusTwice<K, V>(m: map<K, V>, a: set<K>, k: K)
    ensures m - a - {k} == m - (a + {k})
    ensures k !in a ==> (k in m - a <==> k in m)
  {}

  lemma OneMoreElement<T>(keys: set<T>, s: seq<T>, i: nat)
    requires NoDup(s) && i < |s|
    ensures Elements(s[..i + 1]) == Elements(s[..i]) + {s[i]} && s[i] !in Elements(s[..i])
    ensures |keys * Elements(s[..i + 1])| == |keys * Elements(s[..i])| + (if s[i] in keys then 1 else 0)
  {
    assert Elements(s[..i + 1]) == Elements(s[..i]) + {s[i]};
    var before, after := keys * Elements(s[..i]), keys * Elements(s[..i + 1]);
    assert after == if s[i] in keys then before + {s[i]} else before;
  }

  lemma AmongElements<T>(s: seq<T>, i: nat)
    requires i < |s|
    ensures s[i] in Elements(s) && Elements(s[..i]) <= Elements(s)
  {}

  lemma InverseAfterCache(blocks: Blocks, children: ChildIndex, root: Root, block: Block)
    requires IsInverse(blocks, children) && root !in blocks
    ensures var kids := (if block.parent in children then children[block.parent] else []) + [root];
            IsInverse(blocks[root := block], children[block.parent := kids])
  {
    var p := block.parent;
    var kids := (if p in children then children[p] else []) + [root];
    var blocks', children' := blocks[root := block], children[p := kids];
    forall q | q in children' ensures ListsChildrenOf(blocks', children'[q], q) {
      if q in children { assert ListsChildrenOf(blocks, children[q], q); }
    }
    forall r | r in blocks' ensures blocks'[r].parent in children' && r in children'[blocks'[r].parent] {
      if r == root {
        assert kids[|kids| - 1] == root;
      } else if blocks[r].parent == p {
        var i :| 0 <= i < |children[p]| && children[p][i] == r;
        assert kids[i] == r;
      }
    }
  }

  lemma InverseAfterRemove(blocks: Blocks, children: ChildIndex, root: Root, kids: seq<Root>)
    requires IsInverse(blocks, children) && root in blocks
    requires NoDup(kids) && Elements(kids) == Elements(children[blocks[root].parent]) - {root}
    ensures var p := blocks[root].parent;
            IsInverse(blocks - {root}, if kids == [] then children - {p} else children[p := kids])
  {
    var p := blocks[root].parent;
    var blocks' := blocks - {root};
    var children' := if kids == [] then children - {p} else children[p := kids];
    forall q | q in children' ensures ListsChildrenOf(blocks', children'[q], q) {
      assert ListsChildrenOf(blocks, children[q], q);
      forall i | 0 <= i < |children'[q]|
        ensures children'[q][i] in blocks' && blocks'[children'[q][i]].parent == q
      {
        if q == p { assert kids[i] in Elements(kids); }
      }
    }
    forall r | r in blocks' ensures blocks'[r].parent in children' && r in children'[blocks'[r].parent] {
      if blocks[r].parent == p { assert r in Elements(children[p]) - {root}; }
    }
  }
}
