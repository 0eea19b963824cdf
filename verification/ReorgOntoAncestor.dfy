/**
 The tip rule can prefer an ancestor of the current tip: after a mainchain fork
 with more work commits again to an older sidechain block, that block's tip
 beats the longer sidechain. A reorganisation to such a tip cannot succeed: it
 starts over from the genesis block, and discards that block's body.
 */
module ReorgOntoAncestor {
  import opened Wrappers
  import opened ChainTypes
  import opened HeaderTree
  import opened ArchiveDb
  import opened BetterTip
  import opened Segments
  import opened Reorg
  import ArchiveSteps

  /**
   The commitments to the older block and to the tip fork right above the
   mainchain block that the older block was built on.
   */
  lemma ForkPoint(c: Chains, tip: Tip, older: Tip, k: nat)
    requires Usable(c) && WorkExact(c.main.headers, c.main.totalWork) && Older(c, tip, older, k)
    requires c.main.totalWork[older.main] > c.main.totalWork[tip.main]
    ensures c.side.headers[older.block].prevMain in c.main.headers
    ensures Meet(c.main.Tree(), tip.main, older.main) == c.side.headers[older.block].prevMain
  {
    var t := c.main.Tree();
    var p := c.side.headers[older.block].prevMain;
    assert c.side.Tree().Linked(older.block) && c.side.Tree().Linked(tip.block);
    var _ := ParentBuiltBelow(c, older.block, older.main);
    AncestorBuiltLower(c, tip.block, tip.main, k);
    assert t.Linked(older.main) && t.Linked(tip.main);
    t.AncestorParent(older.main);
    t.AncestorParent(tip.main);
    t.AncestorTransitive(p, c.side.headers[tip.block].prevMain, tip.main);
    forall y | y in t.parent && t.IsCommon(y, tip.main, older.main)
      ensures t.height[y] <= t.height[p]
    {
      t.AncestorDepth(y, older.main);
      if t.height[y] == t.height[older.main] {
        assert y == older.main;
        WorkGrows(c.main, older.main, tip.main);
      }
    }
    assert t.IsLastCommon(p, tip.main, older.main);
    t.CommonIffRoot(tip.main, older.main);
    MeetIsUncheckedMeet(t, tip.main, older.main);
    t.LastCommonUnique(Meet(t, tip.main, older.main), p, tip.main, older.main);
  }

  /** The parent of a block above genesis was built on some mainchain block. */
  ghost predicate ParentBuilt(c: Chains, b: BlockHash)
    requires c.TreesValid() && b in c.side.headers && c.side.heights[b] > 0
  {
    assert c.side.Tree().Linked(b);
    c.side.headers[c.side.headers[b].prevSide.value].prevMain != ZERO_HASH
  }

  /** The parent of the older block, if it was built on the mainchain, is the last ancestor before the fork. */
  ghost function BeforeFork(c: Chains, older: BlockHash): Result<Option<BlockHash>, ArchiveSteps.Error>
    requires c.TreesValid() && older in c.side.headers && c.side.heights[older] > 0
  {
    if ParentBuilt(c, older) then Ok(c.side.headers[older].prevSide) else Err(ArchiveSteps.NoMainHeight(ZERO_HASH))
  }

  lemma {:induction false} PreForkFound(c: Chains, x: BlockHash, m: MainHash, older: BlockHash, k: nat)
    requires c.Sound() && x in c.side.headers && older in c.side.headers && c.Verifies(x, m) && k < c.side.heights[x]
    requires c.side.Tree().Up(x, k) == Some(older) && c.side.headers[older].prevMain in c.main.headers
    ensures PreFork(c, x, c.side.headers[older].prevMain) == BeforeFork(c, older)
    decreases k
  {
    var meet := c.side.headers[older].prevMain;
    assert c.side.Tree().Linked(x);
    var p := c.side.headers[x].prevSide.value;
    var a := ParentBuiltBelow(c, x, m);
    if k == 0 {
      ParentLower(c, p, a, older);
      assert c.main.Tree().Linked(a) && c.side.Tree().Linked(p);
    } else {
      AncestorBuiltLower(c, x, m, k);
      c.main.Tree().AncestorDepth(c.side.headers[x].prevMain, meet);
      assert !IsPreFork(c, x, meet);
      assert c.side.Tree().Up(x, k) == c.side.Tree().Up(p, k - 1);
      PreForkFound(c, p, a, older, k - 1);
    }
  }

  /** `older` names a proper ancestor of the tip, above genesis, and both tips are validly committed. */
  ghost predicate Older(c: Chains, tip: Tip, older: Tip, k: nat)
    requires Usable(c)
  {
    && tip.block in c.side.headers && older.block in c.side.headers
    && c.Verifies(tip.block, tip.main) && c.Verifies(older.block, older.main)
    && 0 < k <= c.side.heights[tip.block] && c.side.Tree().Up(tip.block, k) == Some(older.block)
    && c.side.heights[older.block] > 0
  }

  /**
   An older block of the sidechain beats its tip exactly when its commitment has
   more total work and its parent was built on the mainchain; with more work but
   no such parent the rule fails.
   */
  lemma OlderBlockBeatsTip(c: Chains, tip: Tip, older: Tip, k: nat)
    requires Usable(c) && WorkExact(c.main.headers, c.main.totalWork) && Older(c, tip, older, k)
    ensures var more := c.main.totalWork[older.main] > c.main.totalWork[tip.main];
            var built := ParentBuilt(c, older.block);
            && (Better(c, tip, older) == Ok(Some(older)) <==> more && built)
            && (Better(c, tip, older) == Ok(Some(tip)) <==> !more)
            && (Better(c, tip, older).Err? <==> more && !built)
  {
    assert c.side.Tree().Linked(older.block);
    if c.main.totalWork[older.main] > c.main.totalWork[tip.main] {
      ForkPoint(c, tip, older, k);
      PreForkFound(c, tip.block, tip.main, older.block, k);
    }
  }

  /** The lines of tip and older block meet at the older block, so a reorganisation to it has itself as its base. */
  lemma OlderBlockIsBase(c: Chains, tip: Tip, older: Tip, k: nat)
    requires Usable(c) && Older(c, tip, older, k)
    ensures MeetsAt(c, Some(tip.block), older.block, Some(older.block))
  {
    var t := c.side.Tree();
    t.AncestorSelf(older.block);
    forall y | y in t.parent && t.IsCommon(y, tip.block, older.block)
      ensures t.height[y] <= t.height[older.block]
    {
      t.AncestorDepth(y, older.block);
    }
  }
}
