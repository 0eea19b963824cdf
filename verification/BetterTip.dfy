/** The rule that decides which of two sidechain tips to follow. */
module BetterTip {
  import opened Wrappers
  import opened Arith
  import opened ChainTypes
  import opened HeaderTree
  import opened ArchiveDb
  import opened ArchiveSteps

  datatype Ordering = Less | Equal | Greater

  function Compare(a: nat, b: nat): Ordering {
    if a < b then Less else if a == b then Equal else Greater
  }

  /** `None` orders below every value. */
  function CompareOption(a: Option<nat>, b: Option<nat>): Ordering {
    match (a, b)
    case (None, None) => Equal
    case (None, Some(_)) => Less
    case (Some(_), None) => Greater
    case (Some(x), Some(y)) => Compare(x, y)
  }

  // ---- the mainchain fork point ----

  /** Step the higher block down, or both, until they meet or run out. */
  ghost function Meet(t: Tree<MainHash>, b0: MainHash, b1: MainHash): (r: MainHash)
    requires t.Valid() && b0 in t.parent && b1 in t.parent
    ensures r in t.parent
    decreases t.height[b0] + t.height[b1]
  {
    assert t.Linked(b0) && t.Linked(b1);
    if t.height[b0] < t.height[b1] then Meet(t, b0, t.parent[b1].value)
    else if t.height[b0] > t.height[b1] then Meet(t, t.parent[b0].value, b1)
    else if b0 == b1 || t.height[b0] == 0 then b0
    else Meet(t, t.parent[b0].value, t.parent[b1].value)
  }

  lemma StepKeepsLastCommon(t: Tree<MainHash>, b0: MainHash, b1: MainHash, c0: MainHash, c1: MainHash, x: MainHash)
    requires t.Valid() && b0 in t.parent && b1 in t.parent && c0 in t.parent && c1 in t.parent && x in t.parent
    requires t.IsAncestor(c0, b0) && t.IsAncestor(c1, b1)
    requires forall y | y in t.parent && t.IsCommon(y, b0, b1) ::
      t.height[y] <= t.height[c0] && t.height[y] <= t.height[c1]
    requires t.IsLastCommon(x, c0, c1)
    ensures t.IsLastCommon(x, b0, b1)
  {
    t.AncestorTransitive(x, c0, b0);
    t.AncestorTransitive(x, c1, b1);
    forall y | y in t.parent && t.IsCommon(y, b0, b1)
      ensures t.height[y] <= t.height[x]
    {
      t.AncestorsLinear(y, c0, b0);
      t.AncestorsLinear(y, c1, b1);
    }
  }

  /** The walk ends where the indexed search ends. */
  lemma {:induction false} MeetIsUncheckedMeet(t: Tree<MainHash>, b0: MainHash, b1: MainHash)
    requires t.Valid() && b0 in t.parent && b1 in t.parent
    ensures IsUncheckedMeet(t, b0, b1, Meet(t, b0, b1))
    decreases t.height[b0] + t.height[b1]
  {
    assert t.Linked(b0) && t.Linked(b1);
    t.AncestorSelf(b0);
    t.AncestorSelf(b1);
    if b0 == b1 {
      LastCommonSelf(t, b0);
    } else if t.height[b0] == 0 == t.height[b1] {
      t.AncestorDepth(t.Root(b0), b0);
      t.AncestorDepth(t.Root(b1), b1);
    } else {
      var c0 := if t.height[b0] < t.height[b1] then b0 else t.parent[b0].value;
      var c1 := if t.height[b0] > t.height[b1] then b1 else t.parent[b1].value;
      if c0 != b0 {
        t.AncestorParent(b0);
      }
      if c1 != b1 {
        t.AncestorParent(b1);
      }
      t.RootOfAncestor(c0, b0);
      t.RootOfAncestor(c1, b1);
      MeetIsUncheckedMeet(t, c0, c1);
      if t.Root(b0) == t.Root(b1) {
        forall y | y in t.parent && t.IsCommon(y, b0, b1)
          ensures t.height[y] <= t.height[c0] && t.height[y] <= t.height[c1]
        {
          t.AncestorDepth(y, b0);
          t.AncestorDepth(y, b1);
        }
        StepKeepsLastCommon(t, b0, b1, c0, c1, Meet(t, c0, c1));
      }
    }
  }

  /** With a shared genesis the fork point does not depend on the order of the arguments. */
  lemma MeetSymmetric(t: Tree<MainHash>, b0: MainHash, b1: MainHash)
    requires t.Valid() && b0 in t.parent && b1 in t.parent && t.Root(b0) == t.Root(b1)
    ensures Meet(t, b0, b1) == Meet(t, b1, b0)
  {
    MeetIsUncheckedMeet(t, b0, b1);
    MeetIsUncheckedMeet(t, b1, b0);
    t.LastCommonUnique(Meet(t, b0, b1), Meet(t, b1, b0), b0, b1);
  }

  // ---- the last sidechain ancestor before the fork ----

  /** First ancestor of `b`, newest first, that was built strictly before the fork point. */
  ghost function PreFork(c: Chains, b: BlockHash, meet: MainHash): (r: Result<Option<BlockHash>, Error>)
    requires c.TreesValid() && b in c.side.headers && meet in c.main.headers
    ensures r.Ok? && r.value.Some? ==> IsPreFork(c, r.value.value, meet)
    decreases c.side.heights[b]
  {
    assert c.side.Tree().Linked(b);
    var h := c.side.headers[b];
    if h.prevMain != meet && h.prevMain !in c.main.headers then Err(NoMainHeight(h.prevMain))
    else if IsPreFork(c, b, meet) then Ok(Some(b))
    else if h.prevSide.None? then Ok(None)
    else PreFork(c, h.prevSide.value, meet)
  }

  ghost predicate IsPreFork(c: Chains, b: BlockHash, meet: MainHash)
    requires c.TreesValid() && meet in c.main.headers
  {
    && b in c.side.headers && c.side.headers[b].prevMain != meet
    && c.side.headers[b].prevMain in c.main.headers && c.main.Tree().IsAncestor(c.side.headers[b].prevMain, meet)
  }

  ghost function PreForkOf(c: Chains, b: Option<BlockHash>, meet: MainHash): Result<Option<BlockHash>, Error>
    requires c.TreesValid() && (b.Some? ==> b.value in c.side.headers) && meet in c.main.headers
  {
    match b case None => Ok(None) case Some(x) => PreFork(c, x, meet)
  }

  method FindPreFork(c: Chains, b: BlockHash, meet: MainHash) returns (r: Result<Option<BlockHash>, Error>)
    requires c.TreesValid() && c.main.Index().Valid() && b in c.side.headers && meet in c.main.headers
    ensures r == PreFork(c, b, meet)
  {
    var cur := Some(b);
    while cur.Some?
      invariant cur.Some? ==> cur.value in c.side.headers
      invariant PreForkOf(c, cur, meet) == PreFork(c, b, meet)
      decreases if cur.Some? then c.side.heights[cur.value] + 1 else 0
    {
      assert c.side.Tree().Linked(cur.value);
      var h := c.side.headers[cur.value];
      var before := IsDescendant(c.main.Index(), h.prevMain, meet);
      if before.Err? {
        return Err(NoMainHeight(h.prevMain));
      }
      if before.value && h.prevMain != meet {
        return Ok(cur);
      }
      cur := h.prevSide;
    }
    r := Ok(None);
  }

  /** Work of the mainchain block at the height after `prev`, on the way to the fork point. */
  ghost function WorkAfter(c: Chains, prev: MainHash, meet: MainHash): nat
    requires c.TreesValid() && c.main.totalWork.Keys == c.main.headers.Keys && meet in c.main.headers
    requires prev in c.main.headers && prev != meet && c.main.Tree().IsAncestor(prev, meet)
  {
    var t := c.main.Tree();
    t.AncestorDepth(prev, meet);
    c.main.totalWork[t.Up(meet, t.height[meet] - (t.height[prev] + 1)).value]
  }

  // ---- the rule ----

  ghost predicate Comparable(c: Chains) {
    && c.TreesValid() && c.main.Index().Valid() && c.main.totalWork.Keys == c.main.headers.Keys
    && Searchable(c.main.Tree())
  }

  ghost function HeightOf(c: Chains, b: Option<BlockHash>): Option<nat>
    requires c.TreesValid() && (b.Some? ==> b.value in c.side.headers)
  {
    match b case None => None case Some(x) => Some(c.side.heights[x])
  }

  ghost function WorkOf(c: Chains, b: Option<BlockHash>, meet: MainHash): Option<nat>
    requires Comparable(c) && meet in c.main.headers && (b.Some? ==> IsPreFork(c, b.value, meet))
  {
    match b case None => None case Some(x) => Some(WorkAfter(c, c.side.headers[x].prevMain, meet))
  }

  /** Both tips are above genesis and their mainchain blocks are stored. */
  ghost predicate Ranked(c: Chains, a: Tip, b: Tip)
    requires Comparable(c)
  {
    && a.block in c.side.headers && b.block in c.side.headers
    && a.main in c.main.headers && b.main in c.main.headers
  }

  /** The outcome for two tips above genesis. */
  ghost function Preferred(c: Chains, a: Tip, b: Tip): Result<Tip, Error>
    requires Comparable(c) && Ranked(c, a, b)
  {
    var t := c.main.Tree();
    var meet := Meet(t, a.main, b.main);
    match (Compare(c.main.totalWork[a.main], c.main.totalWork[b.main]),
           Compare(c.side.heights[a.block], c.side.heights[b.block]))
    case (Less, Less) => Ok(b)
    case (Equal, Less) => Ok(b)
    case (Equal, Greater) => Ok(a)
    case (Greater, Greater) => Ok(a)
    case (Less, Equal) => Ok(if t.IsAncestor(a.main, b.main) || t.IsAncestor(b.main, a.main) then a else b)
    case (Greater, Equal) => Ok(if t.IsAncestor(a.main, b.main) || t.IsAncestor(b.main, a.main) then b else a)
    case (Less, Greater) =>
      var p :- PreFork(c, a.block, meet);
      Ok(if CompareOption(HeightOf(c, p), Some(c.side.heights[b.block])) != Less then a else b)
    case (Greater, Less) =>
      var p :- PreFork(c, b.block, meet);
      Ok(if CompareOption(HeightOf(c, p), Some(c.side.heights[a.block])) == Less then a else b)
    case (Equal, Equal) =>
      if a.block == b.block then Ok(a) else
      var p :- PreFork(c, a.block, meet);
      var q :- PreFork(c, b.block, meet);
      Ok(match (CompareOption(WorkOf(c, p, meet), WorkOf(c, q, meet)), CompareOption(HeightOf(c, p), HeightOf(c, q)))
         case (_, Greater) => a
         case (_, Less) => b
         case (Greater, Equal) => b
         case (_, Equal) => a)
  }

  /** What the archive answers when asked which of two tips is better. */
  ghost function Better(c: Chains, a: Tip, b: Tip): Result<Option<Tip>, Error>
    requires Comparable(c)
  {
    if a == b then Ok(None)
    else if a.block !in c.side.headers then Err(Error.NoHeight(a.block))
    else if b.block !in c.side.headers then Err(Error.NoHeight(b.block))
    else if c.side.heights[a.block] == 0 then Ok(if c.side.heights[b.block] == 0 then None else Some(b))
    else if c.side.heights[b.block] == 0 then Ok(Some(a))
    else if a.main !in c.main.headers then Err(NoMainHeaderInfo(a.main))
    else if b.main !in c.main.headers then Err(NoMainHeaderInfo(b.main))
    else var t :- Preferred(c, a, b); Ok(Some(t))
  }

  method BetterTip(c: Chains, a: Tip, b: Tip) returns (r: Result<Option<Tip>, Error>)
    requires Comparable(c)
    ensures r == Better(c, a, b)
  {
    if a == b {
      return Ok(None);
    }
    if a.block !in c.side.heights {
      return Err(Error.NoHeight(a.block));
    }
    if b.block !in c.side.heights {
      return Err(Error.NoHeight(b.block));
    }
    var height0, height1 := c.side.heights[a.block], c.side.heights[b.block];
    if height0 == 0 {
      return Ok(if height1 == 0 then None else Some(b));
    } else if height1 == 0 {
      return Ok(Some(a));
    }
    if a.main !in c.main.totalWork {
      return Err(NoMainHeaderInfo(a.main));
    }
    if b.main !in c.main.totalWork {
      return Err(NoMainHeaderInfo(b.main));
    }
    var t := PreferredTip(c, a, b);
    r := if t.Err? then Err(t.error) else Ok(Some(t.value));
  }

  method PreferredTip(c: Chains, a: Tip, b: Tip) returns (r: Result<Tip, Error>)
    requires Comparable(c) && Ranked(c, a, b)
    ensures r == Preferred(c, a, b)
  {
    var height0, height1 := c.side.heights[a.block], c.side.heights[b.block];
    var work0, work1 := c.main.totalWork[a.main], c.main.totalWork[b.main];
    if work0 <= work1 && height0 < height1 {
      return Ok(b);
    }
    if work0 >= work1 && height0 > height1 {
      return Ok(a);
    }
    if height0 == height1 && work0 != work1 {
      // Within one mainchain lineage prefer less work, otherwise more.
      var shared := SharedLineage(c.main.Index(), a.main, b.main);
      return Ok(if (work0 < work1) == shared.value then a else b);
    }
    if work0 == work1 && a.block == b.block {
      return Ok(a);
    }
    var meet := LastCommonAncestorUnchecked(c.main.Index(), a.main, b.main);
    MeetIsUncheckedMeet(c.main.Tree(), a.main, b.main);
    UncheckedMeetUnique(c.main.Tree(), a.main, b.main, meet.value, Meet(c.main.Tree(), a.main, b.main));
    if work0 < work1 {
      var p := FindPreFork(c, a.block, meet.value);
      if p.Err? {
        return Err(p.error);
      }
      return Ok(if p.value.Some? && c.side.heights[p.value.value] >= height1 then a else b);
    }
    if work0 > work1 {
      var p := FindPreFork(c, b.block, meet.value);
      if p.Err? {
        return Err(p.error);
      }
      return Ok(if p.value.None? || c.side.heights[p.value.value] < height0 then a else b);
    }
    r := BrokenTie(c, a, b, meet.value);
  }

  /** Same height and work: the tip with the better ancestor before the fork. */
  method BrokenTie(c: Chains, a: Tip, b: Tip, meet: MainHash) returns (r: Result<Tip, Error>)
    requires Comparable(c) && Ranked(c, a, b) && a.block != b.block && meet == Meet(c.main.Tree(), a.main, b.main)
    requires c.main.totalWork[a.main] == c.main.totalWork[b.main] && c.side.heights[a.block] == c.side.heights[b.block]
    ensures r == Preferred(c, a, b)
  {
    var p := FindPreFork(c, a.block, meet);
    if p.Err? {
      return Err(p.error);
    }
    var ancestor0 := RankPreFork(c, p.value, meet);
    var q := FindPreFork(c, b.block, meet);
    if q.Err? {
      return Err(q.error);
    }
    var ancestor1 := RankPreFork(c, q.value, meet);
    match CompareOption(ancestor0.0, ancestor1.0)
    case Greater => r := Ok(a);
    case Less => r := Ok(b);
    case Equal => r := Ok(if CompareOption(ancestor0.1, ancestor1.1) == Greater then b else a);
  }

  /** Height and mainchain work of a pre-fork ancestor. */
  method RankPreFork(c: Chains, p: Option<BlockHash>, meet: MainHash) returns (r: (Option<nat>, Option<nat>))
    requires Comparable(c) && meet in c.main.headers && (p.Some? ==> IsPreFork(c, p.value, meet))
    ensures r == (HeightOf(c, p), WorkOf(c, p, meet))
  {
    if p.None? {
      return (None, None);
    }
    var prev := c.side.headers[p.value].prevMain;
    c.main.Tree().AncestorDepth(prev, meet);
    var x, _ := GetNthAncestor(c.main.Index(), meet, c.main.heights[meet] - (c.main.heights[prev] + 1));
    r := (Some(c.side.heights[p.value]), Some(c.main.totalWork[x.value]));
  }

  lemma UncheckedMeetUnique(t: Tree<MainHash>, b0: MainHash, b1: MainHash, x: MainHash, y: MainHash)
    requires t.Valid() && b0 in t.parent && b1 in t.parent
    requires IsUncheckedMeet(t, b0, b1, x) && IsUncheckedMeet(t, b0, b1, y)
    ensures x == y
  {
    if t.Root(b0) == t.Root(b1) {
      t.LastCommonUnique(x, y, b0, b1);
    }
  }

  // ---- properties of the rule ----

  /** Nothing is built strictly before a genesis block. */
  lemma {:induction false} NothingBeforeGenesis(c: Chains, b: BlockHash, g: MainHash)
    requires c.TreesValid() && b in c.side.headers && g in c.main.headers && c.main.heights[g] == 0
    ensures PreFork(c, b, g).Ok? ==> PreFork(c, b, g).value == None
    decreases c.side.heights[b]
  {
    assert c.side.Tree().Linked(b);
    var h := c.side.headers[b];
    if h.prevMain in c.main.headers {
      c.main.Tree().AncestorDepth(h.prevMain, g);
    }
    if h.prevSide.Some? {
      NothingBeforeGenesis(c, h.prevSide.value, g);
    }
  }

  lemma {:induction false} PreForkNotAbove(c: Chains, b: BlockHash, meet: MainHash)
    requires c.TreesValid() && b in c.side.headers && meet in c.main.headers && PreFork(c, b, meet).Ok?
    ensures PreFork(c, b, meet).value.Some? ==> c.side.heights[PreFork(c, b, meet).value.value] <= c.side.heights[b]
    decreases c.side.heights[b]
  {
    assert c.side.Tree().Linked(b);
    if !IsPreFork(c, b, meet) && c.side.headers[b].prevSide.Some? {
      PreForkNotAbove(c, c.side.headers[b].prevSide.value, meet);
    }
  }

  /** The pre-fork search gives the same answer whichever tip is named first, if both answer. */
  lemma PreForkSymmetric(c: Chains, a: Tip, b: Tip, s: BlockHash)
    requires Comparable(c) && Ranked(c, a, b) && s in c.side.headers
    ensures var p := PreFork(c, s, Meet(c.main.Tree(), a.main, b.main));
            var q := PreFork(c, s, Meet(c.main.Tree(), b.main, a.main));
            p.Ok? && q.Ok? ==> p == q
    ensures var m := Meet(c.main.Tree(), a.main, b.main);
            var n := Meet(c.main.Tree(), b.main, a.main);
            m == n || (PreFork(c, s, m).Ok? ==> PreFork(c, s, m).value == None)
  {
    var t := c.main.Tree();
    if t.Root(a.main) == t.Root(b.main) {
      MeetSymmetric(t, a.main, b.main);
    } else {
      MeetIsUncheckedMeet(t, a.main, b.main);
      MeetIsUncheckedMeet(t, b.main, a.main);
      NothingBeforeGenesis(c, s, t.Root(a.main));
      NothingBeforeGenesis(c, s, t.Root(b.main));
    }
  }

  /** Two tips that the rule cannot tell apart: same height, same work, same standing before the fork. */
  ghost predicate Tied(c: Chains, a: Tip, b: Tip)
    requires Comparable(c) && Ranked(c, a, b)
  {
    var meet := Meet(c.main.Tree(), a.main, b.main);
    && c.side.heights[a.block] == c.side.heights[b.block] > 0
    && c.main.totalWork[a.main] == c.main.totalWork[b.main]
    && (a.block == b.block ||
        var p := PreFork(c, a.block, meet);
        var q := PreFork(c, b.block, meet);
        p.Ok? && q.Ok? && HeightOf(c, p.value) == HeightOf(c, q.value)
        && WorkOf(c, p.value, meet) == WorkOf(c, q.value, meet))
  }

  /** Asked both ways, the rule names the same tip, except that tied tips each win when named first. */
  lemma PreferredBothWays(c: Chains, a: Tip, b: Tip)
    requires Comparable(c) && Ranked(c, a, b) && a != b
    requires c.side.heights[a.block] > 0 && c.side.heights[b.block] > 0
    requires Preferred(c, a, b).Ok? && Preferred(c, b, a).Ok?
    ensures Preferred(c, a, b) == Preferred(c, b, a) <==> !Tied(c, a, b)
    ensures Tied(c, a, b) ==> Preferred(c, a, b) == Ok(a) && Preferred(c, b, a) == Ok(b)
  {
    PreForkSymmetric(c, a, b, a.block);
    PreForkSymmetric(c, a, b, b.block);
  }

  /** The rule never lets two tips beat each other, so a guard on it cannot ping-pong between two tips. */
  lemma NeverBothBetter(c: Chains, a: Tip, b: Tip)
    requires Comparable(c)
    ensures !(Better(c, a, b) == Ok(Some(b)) && Better(c, b, a) == Ok(Some(a)))
  {
    if Better(c, a, b) == Ok(Some(b)) && Better(c, b, a) == Ok(Some(a)) {
      assert Ranked(c, a, b);
      PreferredBothWays(c, a, b);
    }
  }

  /** An answer always names one of the two tips, and none is named exactly for equal tips or two genesis tips. */
  lemma AnswersNameATip(c: Chains, a: Tip, b: Tip)
    requires Comparable(c) && Better(c, a, b).Ok?
    ensures Better(c, a, b).value in {None, Some(a), Some(b)}
    ensures Better(c, a, b).value == None <==>
            a == b || (c.side.heights[a.block] == 0 && c.side.heights[b.block] == 0)
  {
  }
}
