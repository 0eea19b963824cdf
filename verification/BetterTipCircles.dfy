/**
 When the tip preference runs in a circle. Within one mainchain line it follows
 a strict order; across lines three tips can each be better than the one before.
 */
module BetterTipCircles {
  import opened Wrappers
  import opened ChainTypes
  import opened HeaderTree
  import opened ArchiveDb
  import opened BetterTip
  import opened Segments

  ghost predicate OneLine(t: Tree<MainHash>, x: MainHash, y: MainHash)
    requires t.Valid() && x in t.parent && y in t.parent
  {
    t.IsAncestor(x, y) || t.IsAncestor(y, x)
  }

  /** The rule moves from `a` to `b`. */
  ghost predicate Loses(c: Chains, a: Tip, b: Tip)
    requires Comparable(c)
  {
    Better(c, a, b) == Ok(Some(b))
  }

  ghost predicate Circle(c: Chains, a: Tip, b: Tip, x: Tip)
    requires Comparable(c)
  {
    Loses(c, a, b) && Loses(c, b, x) && Loses(c, x, a)
  }

  // ---- three tips at one height ----

  /** Along a line, less work means lower. */
  lemma LineByWork(c: Chains, x: MainHash, y: MainHash)
    requires c.TreesValid() && WorkExact(c.main.headers, c.main.totalWork) && ZERO_HASH !in c.main.headers
    requires x in c.main.headers && y in c.main.headers && c.main.totalWork[x] < c.main.totalWork[y]
    ensures OneLine(c.main.Tree(), x, y) <==> c.main.Tree().IsAncestor(x, y)
  {
    if c.main.Tree().IsAncestor(y, x) {
      WorkGrows(c.main, y, x);
    }
  }

  /** At one height less work wins on one line, and more work wins across lines. */
  lemma SameHeight(c: Chains, lo: Tip, hi: Tip)
    requires Comparable(c) && Ranked(c, lo, hi)
    requires c.side.heights[lo.block] == c.side.heights[hi.block] > 0
    requires c.main.totalWork[lo.main] < c.main.totalWork[hi.main]
    ensures Loses(c, hi, lo) <==> OneLine(c.main.Tree(), lo.main, hi.main)
    ensures Loses(c, lo, hi) <==> !OneLine(c.main.Tree(), lo.main, hi.main)
  {
  }

  /**
   Three tips at one height, named by increasing work, form a circle exactly
   when the outer two share a mainchain line and the middle one shares a line
   with neither.
   */
  lemma CircleExactly(c: Chains, lo: Tip, mid: Tip, hi: Tip)
    requires Comparable(c) && WorkExact(c.main.headers, c.main.totalWork) && ZERO_HASH !in c.main.headers
    requires Ranked(c, lo, mid) && Ranked(c, lo, hi)
    requires c.side.heights[lo.block] == c.side.heights[mid.block] == c.side.heights[hi.block] > 0
    requires c.main.totalWork[lo.main] < c.main.totalWork[mid.main] < c.main.totalWork[hi.main]
    ensures Circle(c, lo, mid, hi) || Circle(c, hi, mid, lo) <==>
            var t := c.main.Tree();
            OneLine(t, lo.main, hi.main) && !OneLine(t, lo.main, mid.main) && !OneLine(t, mid.main, hi.main)
    ensures !Circle(c, hi, mid, lo)
  {
    SameHeight(c, lo, mid);
    SameHeight(c, mid, hi);
    SameHeight(c, lo, hi);
    LineByWork(c, lo.main, mid.main);
    LineByWork(c, mid.main, hi.main);
    var t := c.main.Tree();
    if t.IsAncestor(lo.main, mid.main) && t.IsAncestor(mid.main, hi.main) {
      t.AncestorTransitive(lo.main, mid.main, hi.main);
    }
  }

  // ---- any number of tips on one line ----

  lemma MeetOnLine(t: Tree<MainHash>, lo: MainHash, hi: MainHash)
    requires t.Valid() && lo in t.parent && hi in t.parent && t.IsAncestor(lo, hi)
    ensures Meet(t, lo, hi) == lo && Meet(t, hi, lo) == lo
  {
    t.AncestorSelf(lo);
    t.RootOfAncestor(lo, hi);
    forall y | y in t.parent && t.IsCommon(y, lo, hi)
      ensures t.height[y] <= t.height[lo]
    {
      t.AncestorDepth(y, lo);
    }
    assert t.IsLastCommon(lo, lo, hi);
    MeetSymmetric(t, lo, hi);
    MeetIsUncheckedMeet(t, lo, hi);
    t.LastCommonUnique(lo, Meet(t, lo, hi), lo, hi);
  }

  ghost predicate Committed(c: Chains, p: Tip)
    requires c.TreesValid()
  {
    p.block in c.side.headers && c.Verifies(p.block, p.main)
  }

  /** A committed block above genesis was itself built before its commitment. */
  lemma OwnPreFork(c: Chains, p: Tip)
    requires c.Sound() && Committed(c, p) && c.side.heights[p.block] > 0
    ensures p.main in c.main.headers && PreFork(c, p.block, p.main) == Ok(Some(p.block))
  {
    assert c.side.Tree().Linked(p.block) && c.main.Tree().Linked(p.main);
    var _ := ParentBuiltBelow(c, p.block, p.main);
    c.main.Tree().AncestorParent(p.main);
  }

  /** But not before a lower commitment on its line. */
  lemma LowerPreFork(c: Chains, q: Tip, meet: MainHash)
    requires c.Sound() && Committed(c, q) && meet in c.main.headers
    requires meet != q.main && c.main.Tree().IsAncestor(meet, q.main) && PreFork(c, q.block, meet).Ok?
    ensures var r := PreFork(c, q.block, meet).value;
            r.Some? ==> c.side.heights[r.value] < c.side.heights[q.block]
  {
    var t := c.main.Tree();
    assert c.side.Tree().Linked(q.block) && t.Linked(q.main);
    t.AncestorDepth(meet, q.main);
    t.AncestorDepth(c.side.headers[q.block].prevMain, meet);
    if c.side.headers[q.block].prevSide.Some? {
      PreForkNotAbove(c, c.side.headers[q.block].prevSide.value, meet);
    }
  }

  /** Higher, or at the same height and committed to earlier. */
  ghost predicate Ahead(c: Chains, q: Tip, p: Tip)
    requires c.TreesValid() && Committed(c, p) && Committed(c, q)
  {
    || c.side.heights[q.block] > c.side.heights[p.block]
    || (c.side.heights[q.block] == c.side.heights[p.block] && c.main.heights[q.main] < c.main.heights[p.main])
  }

  /** Committed tips on one line are compared by height first, and then by who was committed to earlier. */
  lemma LineOrder(c: Chains, p: Tip, q: Tip)
    requires Comparable(c) && c.Sound() && WorkExact(c.main.headers, c.main.totalWork)
    requires Committed(c, p) && Committed(c, q) && OneLine(c.main.Tree(), p.main, q.main)
    requires Loses(c, p, q)
    ensures Ahead(c, q, p)
  {
    var t := c.main.Tree();
    if c.side.heights[p.block] > 0 && c.side.heights[q.block] > 0 {
      t.AncestorDepth(p.main, q.main);
      t.AncestorDepth(q.main, p.main);
      OwnPreFork(c, p);
      OwnPreFork(c, q);
      if t.IsAncestor(p.main, q.main) {
        WorkGrows(c.main, p.main, q.main);
        MeetOnLine(t, p.main, q.main);
        if p.main != q.main && PreFork(c, q.block, p.main).Ok? {
          LowerPreFork(c, q, p.main);
        }
      } else {
        WorkGrows(c.main, q.main, p.main);
        MeetOnLine(t, q.main, p.main);
      }
    }
  }

  /** Tips each of which loses to the next. */
  ghost predicate Rises(c: Chains, tips: seq<Tip>)
    requires Comparable(c)
  {
    && (forall i | 0 <= i < |tips| :: Committed(c, tips[i]))
    && (forall i | 0 <= i < |tips| - 1 :: OnLineWithNext(c, tips, i) && Loses(c, tips[i], tips[i + 1]))
  }

  ghost predicate OnLineWithNext(c: Chains, tips: seq<Tip>, i: nat)
    requires c.TreesValid() && i + 1 < |tips| && Committed(c, tips[i]) && Committed(c, tips[i + 1])
  {
    OneLine(c.main.Tree(), tips[i].main, tips[i + 1].main)
  }

  lemma {:induction false} RisesAhead(c: Chains, tips: seq<Tip>, n: nat)
    requires Comparable(c) && c.Sound() && WorkExact(c.main.headers, c.main.totalWork)
    requires Rises(c, tips) && 0 < n < |tips|
    ensures Ahead(c, tips[n], tips[0])
    decreases n
  {
    assert OnLineWithNext(c, tips, n - 1);
    LineOrder(c, tips[n - 1], tips[n]);
    if n > 1 {
      RisesAhead(c, tips, n - 1);
    }
  }

  /** No circle, of whatever length, runs along mainchain lines: some step of it changes lines. */
  lemma NoCircleAlongLines(c: Chains, tips: seq<Tip>)
    requires Comparable(c) && c.Sound() && WorkExact(c.main.headers, c.main.totalWork)
    requires Rises(c, tips) && |tips| > 1
    ensures tips[|tips| - 1] != tips[0]
  {
    RisesAhead(c, tips, |tips| - 1);
  }
}
