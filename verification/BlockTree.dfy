/** Parent links of the cached blocks: who stands above whom, where a chain of cached
    ancestors ends, and the set of blocks a prune has to take. */
module BlockTree {
  import opened Basics

  /** A 32-byte block root. */
  type Root = nat

  datatype Block = Block(parent: Root, slot: nat)
  datatype Checkpoint = Checkpoint(root: Root, slot: nat)
  type Blocks = map<Root, Block>

  /** The root reached by `k` parent links, if every link starts at a cached block. */
  function Climb(blocks: Blocks, r: Root, k: nat): (a: Option<Root>)
    decreases k
  {
    if k == 0 then Some(r)
    else if r in blocks then Climb(blocks, blocks[r].parent, k - 1)
    else None
  }

  ghost predicate Above(blocks: Blocks, a: Root, x: Root) {
    exists k: nat :: Climb(blocks, x, k) == Some(a)
  }

  /** The cached ancestors of `r` come to an end. */
  ghost predicate Grounded(blocks: Blocks, r: Root) {
    exists k: nat :: Climb(blocks, r, k).None?
  }

  lemma {:induction false} ClimbTwice(blocks: Blocks, r: Root, i: nat, j: nat)
    requires Climb(blocks, r, i).Some?
    ensures Climb(blocks, r, i + j) == Climb(blocks, Climb(blocks, r, i).value, j)
    decreases i
  {
    if i > 0 { ClimbTwice(blocks, blocks[r].parent, i - 1, j); }
  }

  lemma {:induction false} ClimbStaysOut(blocks: Blocks, r: Root, i: nat, j: nat)
    requires Climb(blocks, r, i).None? && i <= j
    ensures Climb(blocks, r, j).None?
    decreases i
  {
    if r in blocks { ClimbStaysOut(blocks, blocks[r].parent, i - 1, j - 1); }
  }

  /** A height that is reached lies below one that is not. */
  lemma ClimbBelow(blocks: Blocks, r: Root, bound: nat, k: nat)
    requires Climb(blocks, r, bound).None? && Climb(blocks, r, k).Some?
    ensures k < bound
  {
    if bound <= k { ClimbStaysOut(blocks, r, bound, k); }
  }

  lemma AboveSelf(blocks: Blocks, x: Root)
    ensures Above(blocks, x, x)
  {
    assert Climb(blocks, x, 0) == Some(x);
  }

  lemma AboveTransitive(blocks: Blocks, a: Root, b: Root, x: Root)
    requires Above(blocks, a, b) && Above(blocks, b, x)
    ensures Above(blocks, a, x)
  {
    var i: nat :| Climb(blocks, x, i) == Some(b);
    var j: nat :| Climb(blocks, b, j) == Some(a);
    ClimbTwice(blocks, x, i, j);
  }

  lemma ParentIsAbove(blocks: Blocks, x: Root)
    requires x in blocks
    ensures Above(blocks, blocks[x].parent, x)
  {
    assert Climb(blocks, x, 1) == Climb(blocks, blocks[x].parent, 0);
  }

  /** Above a block and not the block itself is above its parent. */
  lemma AboveChildIsAboveParent(blocks: Blocks, a: Root, x: Root)
    requires Above(blocks, a, x) && a != x
    ensures x in blocks && Above(blocks, a, blocks[x].parent)
  {
    var k: nat :| Climb(blocks, x, k) == Some(a);
    assert Climb(blocks, blocks[x].parent, k - 1) == Some(a);
  }

  /** The highest cached ancestor of `r`, or `r` itself when it is not cached. `k` bounds the climb. */
  ghost function TopWithin(blocks: Blocks, r: Root, k: nat): (t: Root)
    requires Climb(blocks, r, k).None?
    ensures Above(blocks, t, r)
    ensures t == r || t in blocks
    ensures t in blocks ==> blocks[t].parent !in blocks
    decreases k
  {
    if r in blocks && blocks[r].parent in blocks then
      var t := TopWithin(blocks, blocks[r].parent, k - 1);
      ParentIsAbove(blocks, r);
      AboveTransitive(blocks, t, blocks[r].parent, r);
      t
    else
      AboveSelf(blocks, r);
      r
  }

  ghost function TopOf(blocks: Blocks, r: Root): (t: Root)
    requires Grounded(blocks, r)
    ensures Above(blocks, t, r)
    ensures t == r || t in blocks
    ensures t in blocks ==> blocks[t].parent !in blocks
  {
    var k: nat :| Climb(blocks, r, k).None?;
    TopWithin(blocks, r, k)
  }

  /** There is only one such root. */
  lemma TopIsUnique(blocks: Blocks, r: Root, t: Root, u: Root)
    requires Above(blocks, t, r) && (t == r || t in blocks) && (t in blocks ==> blocks[t].parent !in blocks)
    requires Above(blocks, u, r) && (u == r || u in blocks) && (u in blocks ==> blocks[u].parent !in blocks)
    ensures t == u
  {
    var i: nat :| Climb(blocks, r, i) == Some(t);
    var j: nat :| Climb(blocks, r, j) == Some(u);
    if i < j { NothingCachedAboveTop(blocks, r, t, i, j); }
    if j < i { NothingCachedAboveTop(blocks, r, u, j, i); }
  }

  lemma NothingCachedAboveTop(blocks: Blocks, r: Root, t: Root, i: nat, j: nat)
    requires Climb(blocks, r, i) == Some(t) && (t in blocks ==> blocks[t].parent !in blocks) && i < j
    ensures match Climb(blocks, r, j) case None => true case Some(a) => r in blocks && a !in blocks
  {
    ClimbTwice(blocks, r, i, j - i);
    if t in blocks && j - i > 1 {
      var p := blocks[t].parent;
      assert Climb(blocks, t, j - i) == Climb(blocks, p, j - i - 1) == None;
    }
    if t !in blocks { assert Climb(blocks, t, j - i).None?; }
    if i == 0 && t in blocks { assert r == t; }
  }

  /** The finalized block shields its subtree: it is cached at its slot or later, and the
      start of the prune does not descend from it. */
  ghost predicate Shields(blocks: Blocks, start: Root, fc: Option<Checkpoint>) {
    fc.Some? && fc.value.root in blocks && blocks[fc.value.root].slot >= fc.value.slot
    && !Above(blocks, fc.value.root, start)
  }

  ghost predicate Doomed(blocks: Blocks, start: Root, fc: Option<Checkpoint>, x: Root)
    requires Grounded(blocks, start)
  {
    (x in blocks || x == start)
    && Above(blocks, TopOf(blocks, start), x)
    && !(Shields(blocks, start, fc) && Above(blocks, fc.value.root, x))
  }

  /** What a prune from `start` takes: everything under the highest cached ancestor, minus
      the shielded subtree; nothing at all when `start` is the finalized block. */
  ghost function PruneSet(blocks: Blocks, start: Root, fc: Option<Checkpoint>): (s: set<Root>)
    requires Grounded(blocks, start)
    ensures s <= blocks.Keys + {start}
  {
    if fc.Some? && fc.value.root == start then {}
    else set x | x in blocks.Keys + {start} && Doomed(blocks, start, fc, x)
  }

  /** The child that the walk down passes over. */
  predicate PassedOver(blocks: Blocks, fc: Option<Checkpoint>, child: Root) {
    fc.Some? && child in blocks && blocks[child].slot >= fc.value.slot && child == fc.value.root
  }

  lemma StartIsDoomed(blocks: Blocks, start: Root, fc: Option<Checkpoint>)
    requires Grounded(blocks, start)
    ensures Doomed(blocks, start, fc, start)
  {}

  lemma AncestorIsDoomed(blocks: Blocks, start: Root, fc: Option<Checkpoint>, a: Root)
    requires Grounded(blocks, start) && a in blocks && Above(blocks, a, start)
    requires Above(blocks, TopOf(blocks, start), a)
    ensures Doomed(blocks, start, fc, a)
  {
    if Shields(blocks, start, fc) && Above(blocks, fc.value.root, a) {
      AboveTransitive(blocks, fc.value.root, a, start);
    }
  }

  lemma ChildIsDoomed(blocks: Blocks, start: Root, fc: Option<Checkpoint>, x: Root, child: Root)
    requires Grounded(blocks, start) && Doomed(blocks, start, fc, x)
    requires child in blocks && blocks[child].parent == x && !PassedOver(blocks, fc, child)
    ensures Doomed(blocks, start, fc, child)
  {
    ParentIsAbove(blocks, child);
    AboveTransitive(blocks, TopOf(blocks, start), x, child);
    if Shields(blocks, start, fc) && Above(blocks, fc.value.root, child) {
      AboveChildIsAboveParent(blocks, fc.value.root, child);
    }
  }

  /** `done` holds the walk up and, for each of its members, the children not passed over. */
  ghost predicate WalkedDown(blocks: Blocks, start: Root, fc: Option<Checkpoint>, done: set<Root>)
    requires Grounded(blocks, start)
  {
    start in done && TopOf(blocks, start) in done
    && (forall a :: a in blocks && Above(blocks, a, start) ==> a in done)
    && (forall c :: c in blocks && blocks[c].parent in done ==> c in done || PassedOver(blocks, fc, c))
  }

  /** A walk that is complete has reached every doomed block. */
  lemma {:induction false} WalkReachesDoomed(blocks: Blocks, start: Root, fc: Option<Checkpoint>, done: set<Root>, x: Root, k: nat)
    requires Grounded(blocks, start) && WalkedDown(blocks, start, fc, done)
    requires Doomed(blocks, start, fc, x) && Climb(blocks, x, k) == Some(TopOf(blocks, start))
    ensures x in done
    decreases k
  {
    if k > 0 {
      var p := blocks[x].parent;
      var top := TopOf(blocks, start);
      assert Climb(blocks, p, k - 1) == Some(top);
      if p != top {
        ParentIsAbove(blocks, x);
        if Shields(blocks, start, fc) && Above(blocks, fc.value.root, p) {
          AboveTransitive(blocks, fc.value.root, p, x);
        }
        WalkReachesDoomed(blocks, start, fc, done, p, k - 1);
      }
      if PassedOver(blocks, fc, x) && x !in done { AboveSelf(blocks, x); }
    }
  }

  lemma WalkIsPruneSet(blocks: Blocks, start: Root, fc: Option<Checkpoint>, done: set<Root>)
    requires Grounded(blocks, start) && !(fc.Some? && fc.value.root == start)
    requires WalkedDown(blocks, start, fc, done)
    requires forall x :: x in done ==> Doomed(blocks, start, fc, x)
    ensures done == PruneSet(blocks, start, fc)
  {
    forall x | x in PruneSet(blocks, start, fc) ensures x in done {
      var k: nat :| Climb(blocks, x, k) == Some(TopOf(blocks, start));
      WalkReachesDoomed(blocks, start, fc, done, x, k);
    }
  }

  /** A pruned block's cached children are pruned too, except the shielded finalized block:
      no block is left hanging under a removed one. */
  lemma PruneLeavesNoOrphans(blocks: Blocks, start: Root, fc: Option<Checkpoint>, c: Root)
    requires Grounded(blocks, start) && c in blocks && blocks[c].parent in PruneSet(blocks, start, fc)
    ensures c in PruneSet(blocks, start, fc)
            <==> !(Shields(blocks, start, fc) && c == fc.value.root)
  {
    AboveSelf(blocks, c);
    if !PassedOver(blocks, fc, c) {
      ChildIsDoomed(blocks, start, fc, blocks[c].parent, c);
    } else if Above(blocks, c, start) {
      ParentIsAbove(blocks, c);
      AboveTransitive(blocks, TopOf(blocks, start), blocks[c].parent, c);
    }
  }

  lemma {:induction false} BelowIsCached(blocks: Blocks, r: Root, k: nat)
    requires Climb(blocks, r, k + 1).Some?
    ensures Climb(blocks, r, k).Some? && Climb(blocks, r, k).value in blocks
    decreases k
  {
    if k > 0 { BelowIsCached(blocks, blocks[r].parent, k - 1); }
  }

  /** Some root is met twice on the climb. */
  ghost predicate Repeats(blocks: Blocks, r: Root) {
    exists i: nat, j: nat :: i < j && Climb(blocks, r, i).Some? && Climb(blocks, r, i) == Climb(blocks, r, j)
  }

  /** From a root that is its own ancestor the climb goes on for ever. */
  lemma {:induction false} CycleNeverEnds(blocks: Blocks, a: Root, d: nat, k: nat)
    requires d > 0 && Climb(blocks, a, d) == Some(a)
    ensures Climb(blocks, a, k).Some?
    decreases k
  {
    if k > d {
      ClimbTwice(blocks, a, d, k - d);
      CycleNeverEnds(blocks, a, d, k - d);
    } else if Climb(blocks, a, k).None? {
      ClimbStaysOut(blocks, a, k, d);
    }
  }

  lemma RepeatNeverEnds(blocks: Blocks, r: Root, k: nat)
    requires Repeats(blocks, r)
    ensures Climb(blocks, r, k).Some?
  {
    var i: nat, j: nat :| i < j && Climb(blocks, r, i).Some? && Climb(blocks, r, i) == Climb(blocks, r, j);
    var a := Climb(blocks, r, i).value;
    ClimbTwice(blocks, r, i, j - i);
    CycleNeverEnds(blocks, a, j - i, k);
    ClimbTwice(blocks, r, i, k);
    if Climb(blocks, r, k).None? { ClimbStaysOut(blocks, r, k, i + k); }
  }

  /** A climb higher than there are blocks meets a root twice. */
  lemma LongClimbRepeats(blocks: Blocks, r: Root)
    requires Climb(blocks, r, |blocks| + 1).Some?
    ensures Repeats(blocks, r)
  {
    var n := |blocks| + 1;
    forall i: nat | i < n ensures Climb(blocks, r, i).Some? && Climb(blocks, r, i).value in blocks {
      if Climb(blocks, r, i + 1).None? { ClimbStaysOut(blocks, r, i + 1, n); }
      BelowIsCached(blocks, r, i);
    }
    var path := seq(n, i requires 0 <= i < n => Climb(blocks, r, i).value);
    assert Elements(path) <= blocks.Keys;
    if NoDup(path) { DistinctFit(path, blocks.Keys); }
    var i, j :| 0 <= i < j < |path| && path[i] == path[j];
    assert Climb(blocks, r, i) == Climb(blocks, r, j);
  }

  /** The climb ends exactly when it ends within one step more than there are blocks, and
      exactly when it meets no root twice. */
  lemma GroundedIff(blocks: Blocks, r: Root)
    ensures Grounded(blocks, r) <==> Climb(blocks, r, |blocks| + 1).None?
    ensures Grounded(blocks, r) <==> !Repeats(blocks, r)
  {
    if Climb(blocks, r, |blocks| + 1).Some? { LongClimbRepeats(blocks, r); }
    if Repeats(blocks, r) {
      forall k: nat ensures Climb(blocks, r, k).Some? { RepeatNeverEnds(blocks, r, k); }
    }
  }

  /** The walk up stops at this height: its block or its block's parent is not cached. */
  ghost predicate StopsAt(blocks: Blocks, r: Root, h: nat) {
    match Climb(blocks, r, h)
    case Some(a) => !(a in blocks && blocks[a].parent in blocks)
    case None => false
  }

  /** The walk up of a prune, which does not look for blocks it has met, stops at some height
      if and only if no root is its own ancestor on the way. */
  lemma WalkUpEndsIff(blocks: Blocks, r: Root)
    ensures (exists h: nat :: StopsAt(blocks, r, h)) <==> !Repeats(blocks, r)
  {
    GroundedIff(blocks, r);
    if Grounded(blocks, r) {
      var top := TopOf(blocks, r);
      var h: nat :| Climb(blocks, r, h) == Some(top);
      assert !(top in blocks && blocks[top].parent in blocks);
      assert StopsAt(blocks, r, h);
    } else {
      forall h: nat ensures !StopsAt(blocks, r, h) {
        BelowIsCached(blocks, r, h);
        BelowIsCached(blocks, r, h + 1);
        ClimbTwice(blocks, r, h, 1);
        var a := Climb(blocks, r, h).value;
        assert Climb(blocks, a, 1) == Climb(blocks, blocks[a].parent, 0);
      }
    }
  }

  /** Parent links that go down in some rank, as hash links do, ground every root. */
  lemma {:induction false} RankedLinksGround(blocks: Blocks, rank: Root -> nat, r: Root)
    requires forall x :: x in blocks ==> rank(blocks[x].parent) < rank(x)
    ensures Grounded(blocks, r)
    decreases rank(r)
  {
    if r in blocks {
      RankedLinksGround(blocks, rank, blocks[r].parent);
      var k: nat :| Climb(blocks, blocks[r].parent, k).None?;
      assert Climb(blocks, r, k + 1).None?;
    } else {
      assert Climb(blocks, r, 1).None?;
    }
  }

  lemma {:induction false} SubmapClimbsLower(blocks: Blocks, sub: Blocks, r: Root, k: nat)
    requires sub.Items <= blocks.Items && Climb(blocks, r, k).None?
    ensures Climb(sub, r, k).None?
    decreases k
  {
    if r in sub {
      assert (r, sub[r]) in blocks.Items;
      SubmapClimbsLower(blocks, sub, blocks[r].parent, k - 1);
    }
  }

  /** Removing blocks leaves every chain that ended with an end. */
  lemma SubmapStaysGrounded(blocks: Blocks, sub: Blocks, r: Root)
    requires sub.Items <= blocks.Items && Grounded(blocks, r)
    ensures Grounded(sub, r)
  {
    var k: nat :| Climb(blocks, r, k).None?;
    SubmapClimbsLower(blocks, sub, r, k);
  }

  ghost predicate SlotsGrow(blocks: Blocks) {
    forall x :: x in blocks && blocks[x].parent in blocks ==> blocks[blocks[x].parent].slot < blocks[x].slot
  }

  /** Slots grow along a climb. */
  lemma {:induction false} AncestorsAreOlder(blocks: Blocks, x: Root, k: nat)
    requires SlotsGrow(blocks) && x in blocks && Climb(blocks, x, k).Some? && Climb(blocks, x, k).value in blocks
    ensures k > 0 ==> blocks[Climb(blocks, x, k).value].slot < blocks[x].slot
    decreases k
  {
    if k > 1 { AncestorsAreOlder(blocks, blocks[x].parent, k - 1); }
  }

  /** A climb within blocks that were all kept is unchanged. */
  lemma {:induction false} KeptClimb(blocks: Blocks, sub: Blocks, f: Root, x: Root, k: nat)
    requires sub.Items <= blocks.Items && Climb(blocks, x, k) == Some(f)
    requires forall y :: y in blocks && Above(blocks, f, y) ==> y in sub
    ensures Climb(sub, x, k) == Some(f)
    decreases k
  {
    if k > 0 {
      assert Above(blocks, f, x);
      assert (x, sub[x]) in blocks.Items;
      KeptClimb(blocks, sub, f, blocks[x].parent, k - 1);
    }
  }

  /** A prune from a block no later than the finalized one leaves the finalized subtree. */
  lemma FinalizedTreeSurvives(blocks: Blocks, now: Blocks, start: Root, fc: Checkpoint)
    requires SlotsGrow(blocks) && now.Items <= blocks.Items
    requires fc.root in blocks && blocks[fc.root].slot >= fc.slot
    requires start in blocks && blocks[start].slot <= fc.slot && Grounded(now, start)
    requires forall y :: y in blocks && Above(blocks, fc.root, y) ==> y in now
    ensures forall y :: y in blocks && Above(blocks, fc.root, y) ==> y !in PruneSet(now, start, Some(fc))
  {
    if fc.root != start {
      AboveSelf(blocks, fc.root);
      assert (fc.root, now[fc.root]) in blocks.Items;
      if Above(now, fc.root, start) {
        var k: nat :| Climb(now, start, k) == Some(fc.root);
        SubmapClimb(blocks, now, start, k);
        AncestorsAreOlder(blocks, start, k);
      }
      assert Shields(now, start, Some(fc));
      forall y | y in blocks && Above(blocks, fc.root, y) ensures y !in PruneSet(now, start, Some(fc)) {
        var k: nat :| Climb(blocks, y, k) == Some(fc.root);
        KeptClimb(blocks, now, fc.root, y, k);
      }
    }
  }

  lemma {:induction false} SubmapClimb(blocks: Blocks, sub: Blocks, x: Root, k: nat)
    requires sub.Items <= blocks.Items && Climb(sub, x, k).Some?
    ensures Climb(blocks, x, k) == Climb(sub, x, k)
    decreases k
  {
    if k > 0 {
      assert (x, sub[x]) in blocks.Items;
      SubmapClimb(blocks, sub, sub[x].parent, k - 1);
    }
  }

  /** The block hangs under the highest cached ancestor of `r`. */
  ghost predicate SharesTree(blocks: Blocks, r: Root, x: Root)
    requires Grounded(blocks, r)
  {
    Above(blocks, TopOf(blocks, r), x)
  }

  /** No cached ancestor stands higher than the top. */
  lemma TopIsHighest(blocks: Blocks, r: Root, a: Root)
    requires Grounded(blocks, r) && Above(blocks, a, r) && (a == r || a in blocks)
    ensures Above(blocks, TopOf(blocks, r), a)
  {
    var t := TopOf(blocks, r);
    if a != r {
      var i: nat :| Climb(blocks, r, i) == Some(a);
      var j: nat :| Climb(blocks, r, j) == Some(t);
      if j < i { NothingCachedAboveTop(blocks, r, t, j, i); }
      ClimbTwice(blocks, r, i, j - i);
    }
  }

  /** A prune stays within the tree of its start, even when part of it is gone already. */
  lemma PruneStaysInTree(blocks: Blocks, now: Blocks, start: Root, fc: Option<Checkpoint>, x: Root)
    requires now.Items <= blocks.Items && Grounded(blocks, start) && Grounded(now, start)
    requires x in PruneSet(now, start, fc)
    ensures SharesTree(blocks, start, x)
  {
    var top := TopOf(now, start);
    var i: nat :| Climb(now, start, i) == Some(top);
    var j: nat :| Climb(now, x, j) == Some(top);
    SubmapClimb(blocks, now, start, i);
    SubmapClimb(blocks, now, x, j);
    assert Above(blocks, top, start) && Above(blocks, top, x);
    if top in now { assert (top, now[top]) in blocks.Items; }
    TopIsHighest(blocks, start, top);
    AboveTransitive(blocks, TopOf(blocks, start), top, x);
  }
}
