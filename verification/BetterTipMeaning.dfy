/**
 What the tip rule decides, in terms of heights, total work and ancestors only:
 a tip that has less work than a lower one survives exactly if its chain had
 reached the other's height before their commitments forked.
 */
module BetterTipMeaning {
  import opened Wrappers
  import opened ChainTypes
  import opened HeaderTree
  import opened ArchiveDb
  import opened BetterTip

  // ---- blocks built before a mainchain block ----

  /** The mainchain block that `x` was built on lies strictly below `l` on its line. */
  ghost predicate BuiltBefore(c: Chains, x: BlockHash, l: MainHash)
    requires c.TreesValid() && x in c.side.headers && l in c.main.headers
  {
    exists n: nat :: n > 0 && c.main.Tree().Up(l, n) == Some(c.side.headers[x].prevMain)
  }

  /** `b` or an ancestor of it. */
  ghost predicate OnChain(c: Chains, x: BlockHash, b: BlockHash)
    requires c.TreesValid() && b in c.side.headers
  {
    x in c.side.headers && c.side.Tree().IsAncestor(x, b)
  }

  ghost predicate BeforeOnChain(c: Chains, x: BlockHash, b: BlockHash, l: MainHash)
    requires c.TreesValid() && b in c.side.headers && l in c.main.headers
  {
    OnChain(c, x, b) && BuiltBefore(c, x, l)
  }

  /** The chain of `b` had reached height `h` before `l`. */
  ghost predicate ReachedBefore(c: Chains, b: BlockHash, l: MainHash, h: nat)
    requires c.TreesValid() && b in c.side.headers && l in c.main.headers
  {
    exists x :: BeforeOnChain(c, x, b, l) && c.side.heights[x] >= h
  }

  /** `p` is the highest block of the chain of `b` that was built before `l`, if there is one. */
  ghost predicate HighestBefore(c: Chains, b: BlockHash, l: MainHash, p: Option<BlockHash>)
    requires c.TreesValid() && b in c.side.headers && l in c.main.headers
  {
    match p
    case None => forall y :: !BeforeOnChain(c, y, b, l)
    case Some(x) => BeforeOnChain(c, x, b, l) && forall y | BeforeOnChain(c, y, b, l) ::
         c.side.heights[y] <= c.side.heights[x]
  }

  /** The search comes across a block built on an unknown mainchain block before it finds one built before `l`. */
  ghost predicate Blocked(c: Chains, b: BlockHash, l: MainHash)
    requires c.TreesValid() && b in c.side.headers && l in c.main.headers
  {
    exists x :: BlockedAt(c, b, l, x)
  }

  ghost predicate BlockedAt(c: Chains, b: BlockHash, l: MainHash, x: BlockHash)
    requires c.TreesValid() && b in c.side.headers && l in c.main.headers
  {
    && OnChain(c, x, b) && c.side.headers[x].prevMain !in c.main.headers
    && forall y | BeforeOnChain(c, y, b, l) :: c.side.heights[y] < c.side.heights[x]
  }

  lemma BuiltBeforeIsPreFork(c: Chains, x: BlockHash, l: MainHash)
    requires c.TreesValid() && x in c.side.headers && l in c.main.headers
    ensures BuiltBefore(c, x, l) <==> IsPreFork(c, x, l)
  {
    var t, m := c.main.Tree(), c.side.headers[x].prevMain;
    t.AncestorDepth(m, l);
    if IsPreFork(c, x, l) {
      var n: nat := t.height[l] - t.height[m];
      assert t.Up(l, n) == Some(m) && (n == 0 ==> m == l);
    }
  }

  lemma ChainStep(c: Chains, y: BlockHash, b: BlockHash)
    requires c.TreesValid() && b in c.side.headers
    ensures c.side.headers[b].prevSide.Some? ==> c.side.headers[b].prevSide.value in c.side.headers
    ensures OnChain(c, y, b) <==>
            y == b || (c.side.headers[b].prevSide.Some? && OnChain(c, y, c.side.headers[b].prevSide.value))
    ensures OnChain(c, y, b) ==>
            c.side.heights[y] <= c.side.heights[b] && (c.side.heights[y] == c.side.heights[b] ==> y == b)
  {
    var t := c.side.Tree();
    assert t.Linked(b);
    t.AncestorSelf(b);
    t.AncestorDepth(y, b);
    if c.side.headers[b].prevSide.Some? {
      var p := c.side.headers[b].prevSide.value;
      t.AncestorDepth(y, p);
      if y in t.parent && t.height[y] <= t.height[p] {
        assert t.Up(b, t.height[b] - t.height[y]) == t.Up(p, t.height[p] - t.height[y]);
      }
    }
  }

  /** The walk back finds the highest block built before `l`, unless an unknown mainchain block stops it. */
  lemma {:induction false} WalkFindsHighest(c: Chains, b: BlockHash, l: MainHash)
    requires c.TreesValid() && b in c.side.headers && l in c.main.headers
    ensures PreFork(c, b, l).Ok? ==> HighestBefore(c, b, l, PreFork(c, b, l).value)
    ensures PreFork(c, b, l).Err? <==> Blocked(c, b, l)
    decreases c.side.heights[b]
  {
    assert c.side.Tree().Linked(b);
    BuiltBeforeIsPreFork(c, b, l);
    forall y
      ensures OnChain(c, y, b) <==>
              y == b || (c.side.headers[b].prevSide.Some? && OnChain(c, y, c.side.headers[b].prevSide.value))
      ensures OnChain(c, y, b) ==>
              c.side.heights[y] <= c.side.heights[b] && (c.side.heights[y] == c.side.heights[b] ==> y == b)
    {
      ChainStep(c, y, b);
    }
    if c.side.headers[b].prevMain !in c.main.headers {
      assert BlockedAt(c, b, l, b);
    } else if BuiltBefore(c, b, l) {
      assert BeforeOnChain(c, b, b, l);
    } else if c.side.headers[b].prevSide.Some? {
      var p := c.side.headers[b].prevSide.value;
      WalkFindsHighest(c, p, l);
      assert forall y :: BeforeOnChain(c, y, b, l) <==> BeforeOnChain(c, y, p, l);
      assert forall x :: BlockedAt(c, b, l, x) <==> BlockedAt(c, p, l, x);
    }
  }

  lemma FoundReaches(c: Chains, b: BlockHash, l: MainHash, h: nat)
    requires c.TreesValid() && b in c.side.headers && l in c.main.headers && PreFork(c, b, l).Ok?
    ensures var p := PreFork(c, b, l).value;
            ReachedBefore(c, b, l, h) <==> p.Some? && c.side.heights[p.value] >= h
  {
    WalkFindsHighest(c, b, l);
  }

  // ---- the decisions ----

  /** Both tips are above genesis. */
  ghost predicate Contested(c: Chains, a: Tip, b: Tip, l: MainHash)
    requires Comparable(c)
  {
    && Ranked(c, a, b) && c.side.heights[a.block] > 0 && c.side.heights[b.block] > 0
    && l in c.main.headers && IsUncheckedMeet(c.main.Tree(), a.main, b.main, l)
  }

  lemma ForkIsMeet(c: Chains, a: Tip, b: Tip, l: MainHash)
    requires Comparable(c) && Contested(c, a, b, l)
    ensures Meet(c.main.Tree(), a.main, b.main) == l
  {
    MeetIsUncheckedMeet(c.main.Tree(), a.main, b.main);
    UncheckedMeetUnique(c.main.Tree(), a.main, b.main, l, Meet(c.main.Tree(), a.main, b.main));
  }

  /** A genesis tip loses to every higher one, on either side. */
  lemma GenesisLoses(c: Chains, a: Tip, b: Tip)
    requires Comparable(c) && a.block in c.side.headers && b.block in c.side.headers
    requires c.side.heights[a.block] == 0 < c.side.heights[b.block]
    ensures Better(c, a, b) == Ok(Some(b)) && Better(c, b, a) == Ok(Some(b))
  {
  }

  /** A higher tip with at least as much work wins, on either side. */
  lemma HigherAndHeavier(c: Chains, a: Tip, b: Tip)
    requires Comparable(c) && Ranked(c, a, b) && 0 < c.side.heights[a.block] < c.side.heights[b.block]
    requires c.main.totalWork[a.main] <= c.main.totalWork[b.main]
    ensures Better(c, a, b) == Ok(Some(b)) && Better(c, b, a) == Ok(Some(b))
  {
  }

  /**
   The higher tip with less work, named first, wins exactly if its chain had
   reached the other's height before the fork; there is no answer exactly if the
   search is blocked.
   */
  lemma HigherButLighter(c: Chains, a: Tip, b: Tip, l: MainHash)
    requires Comparable(c) && Contested(c, a, b, l)
    requires c.side.heights[a.block] > c.side.heights[b.block] && c.main.totalWork[a.main] < c.main.totalWork[b.main]
    ensures Better(c, a, b).Err? <==> Blocked(c, a.block, l)
    ensures Better(c, a, b).Ok? ==>
              Better(c, a, b) == Ok(Some(if ReachedBefore(c, a.block, l, c.side.heights[b.block]) then a else b))
  {
    ForkIsMeet(c, a, b, l);
    WalkFindsHighest(c, a.block, l);
    if PreFork(c, a.block, l).Ok? {
      FoundReaches(c, a.block, l, c.side.heights[b.block]);
    }
  }

  /** The same with the higher tip named second. */
  lemma LowerButHeavier(c: Chains, a: Tip, b: Tip, l: MainHash)
    requires Comparable(c) && Contested(c, a, b, l)
    requires c.side.heights[a.block] < c.side.heights[b.block] && c.main.totalWork[a.main] > c.main.totalWork[b.main]
    ensures Better(c, a, b).Err? <==> Blocked(c, b.block, l)
    ensures Better(c, a, b).Ok? ==>
              Better(c, a, b) == Ok(Some(if ReachedBefore(c, b.block, l, c.side.heights[a.block]) then b else a))
  {
    ForkIsMeet(c, a, b, l);
    WalkFindsHighest(c, b.block, l);
    if PreFork(c, b.block, l).Ok? {
      FoundReaches(c, b.block, l, c.side.heights[a.block]);
    }
  }

  // ---- equal height and work ----

  /** Total work of the block on the line of `l` right above the one that `p` was built on. */
  ghost predicate CommitWork(c: Chains, p: Option<BlockHash>, l: MainHash, w: nat)
    requires Comparable(c) && l in c.main.headers
  {
    p.Some? ==>
      && p.value in c.side.headers
      && exists m :: && m in c.main.headers && c.main.Tree().IsAncestor(m, l)
                     && c.main.headers[m].prev == c.side.headers[p.value].prevMain && c.main.totalWork[m] == w
  }

  /** Between two chains built before the fork: the higher one, then the one whose next block has less work. */
  ghost predicate Earlier(c: Chains, q: Option<BlockHash>, wq: nat, p: Option<BlockHash>, wp: nat)
    requires (p.Some? ==> p.value in c.side.heights) && (q.Some? ==> q.value in c.side.heights)
  {
    q.Some? && (p.None? || c.side.heights[q.value] > c.side.heights[p.value]
                || (c.side.heights[q.value] == c.side.heights[p.value] && wq < wp))
  }

  lemma CommitWorkIs(c: Chains, x: BlockHash, l: MainHash, w: nat)
    requires Comparable(c) && ZERO_HASH !in c.main.headers && l in c.main.headers && IsPreFork(c, x, l)
    requires CommitWork(c, Some(x), l, w)
    ensures WorkOf(c, Some(x), l) == Some(w)
  {
    var t, prev := c.main.Tree(), c.side.headers[x].prevMain;
    var m :| && m in c.main.headers && t.IsAncestor(m, l) && c.main.headers[m].prev == prev && c.main.totalWork[m] == w;
    assert t.Linked(m);
    t.AncestorDepth(m, l);
    t.AncestorDepth(prev, l);
  }

  lemma HighestIsFound(c: Chains, b: BlockHash, l: MainHash, p: Option<BlockHash>)
    requires c.TreesValid() && b in c.side.headers && l in c.main.headers
    requires HighestBefore(c, b, l, p) && PreFork(c, b, l).Ok?
    ensures PreFork(c, b, l).value == p
    ensures p.Some? ==> IsPreFork(c, p.value, l)
  {
    WalkFindsHighest(c, b, l);
    var r := PreFork(c, b, l).value;
    if p.Some? {
      BuiltBeforeIsPreFork(c, p.value, l);
      assert BeforeOnChain(c, p.value, b, l);
      if r.Some? {
        assert BeforeOnChain(c, r.value, b, l);
        c.side.Tree().AncestorUnique(p.value, r.value, b);
      }
    }
    if r.Some? {
      assert BeforeOnChain(c, r.value, b, l);
    }
  }

  /** What the search finds, in ancestor terms. */
  lemma Finds(c: Chains, b: BlockHash, l: MainHash, p: Option<BlockHash>, w: nat)
    requires Comparable(c) && ZERO_HASH !in c.main.headers && b in c.side.headers && l in c.main.headers
    requires HighestBefore(c, b, l, p) && CommitWork(c, p, l, w)
    ensures PreFork(c, b, l).Err? <==> Blocked(c, b, l)
    ensures PreFork(c, b, l).Ok? ==> PreFork(c, b, l) == Ok(p) && (p.Some? ==> IsPreFork(c, p.value, l))
    ensures PreFork(c, b, l).Ok? ==> WorkOf(c, p, l) == if p.Some? then Some(w) else None
  {
    WalkFindsHighest(c, b, l);
    if PreFork(c, b, l).Ok? {
      HighestIsFound(c, b, l, p);
      if p.Some? {
        CommitWorkIs(c, p.value, l, w);
      }
    }
  }

  /**
   Equal height and work: the second tip wins exactly if the chain it had before
   the fork was higher, or as high and committed to with less work; there is no
   answer exactly if a search is blocked.
   */
  lemma TieDecided(c: Chains, a: Tip, b: Tip, l: MainHash, p: Option<BlockHash>, wp: nat, q: Option<BlockHash>, wq: nat)
    requires Comparable(c) && ZERO_HASH !in c.main.headers && Contested(c, a, b, l) && a.block != b.block
    requires c.side.heights[a.block] == c.side.heights[b.block] && c.main.totalWork[a.main] == c.main.totalWork[b.main]
    requires HighestBefore(c, a.block, l, p) && CommitWork(c, p, l, wp)
    requires HighestBefore(c, b.block, l, q) && CommitWork(c, q, l, wq)
    ensures Better(c, a, b).Err? <==> Blocked(c, a.block, l) || Blocked(c, b.block, l)
    ensures Better(c, a, b).Ok? ==> Better(c, a, b) == Ok(Some(if Earlier(c, q, wq, p, wp) then b else a))
  {
    ForkIsMeet(c, a, b, l);
    Finds(c, a.block, l, p, wp);
    Finds(c, b.block, l, q, wq);
  }

  /** Two tips of one block with equal work keep the one named first. */
  lemma SameBlockKept(c: Chains, a: Tip, b: Tip)
    requires Comparable(c) && Ranked(c, a, b) && a != b && a.block == b.block && c.side.heights[a.block] > 0
    requires c.main.totalWork[a.main] == c.main.totalWork[b.main]
    ensures Better(c, a, b) == Ok(Some(a))
  {
  }
}
