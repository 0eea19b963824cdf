/**
 Block headers as a forest: each stored block has an optional parent and a
 height. The sidechain and the mainchain header tables are both such forests,
 and the archive keeps the same power-of-two ancestor index for each.
 */
module HeaderTree {
  import opened Wrappers
  import opened Arith

  datatype Tree<H(==, !new)> = Tree(parent: map<H, Option<H>>, height: map<H, nat>) {

    /** Every stored block has a height, and its parent is stored one lower. */
    ghost predicate Valid() {
      && parent.Keys == height.Keys
      && forall b {:trigger Linked(b)} | b in parent :: Linked(b)
    }

    /** The parent of `b`, if it has one, is stored at the height below. */
    ghost predicate Linked(b: H)
      requires parent.Keys == height.Keys && b in parent
    {
      match parent[b]
      case None => height[b] == 0
      case Some(p) => p in parent && height[b] == height[p] + 1
    }

    /** `n` parent steps from `b`; this is what every fast lookup must equal. */
    ghost function Up(b: H, n: nat): (r: Option<H>)
      requires Valid() && b in parent
      ensures r.Some? <==> n <= height[b]
      ensures r.Some? ==> r.value in parent && height[r.value] + n == height[b]
      decreases n
    {
      assert Linked(b);
      if n == 0 then Some(b)
      else match parent[b] case None => None case Some(p) => Up(p, n - 1)
    }

    ghost predicate IsAncestor(a: H, b: H)
      requires Valid() && b in parent
    {
      exists n: nat :: Up(b, n) == Some(a)
    }

    /** The oldest ancestor of `b`. */
    ghost function Root(b: H): (r: H)
      requires Valid() && b in parent
      ensures r in parent && height[r] == 0 && IsAncestor(r, b)
    {
      assert Up(b, height[b]).Some?;
      Up(b, height[b]).value
    }

    ghost predicate IsCommon(x: H, b0: H, b1: H)
      requires Valid() && b0 in parent && b1 in parent
    {
      IsAncestor(x, b0) && IsAncestor(x, b1)
    }

    /** `x` is a common ancestor and no common ancestor is higher. */
    ghost predicate IsLastCommon(x: H, b0: H, b1: H)
      requires Valid() && b0 in parent && b1 in parent
    {
      && IsCommon(x, b0, b1)
      && forall y | y in parent && IsCommon(y, b0, b1) :: height[y] <= height[x]
    }

    lemma {:induction false} UpPlus(b: H, m: nat, n: nat)
      requires Valid() && b in parent && m <= height[b]
      ensures Up(b, m + n) == Up(Up(b, m).value, n)
      decreases m
    {
      assert Linked(b);
      if m > 0 {
        UpPlus(parent[b].value, m - 1, n);
      }
    }

    /** An ancestor is found exactly at the depth given by the height difference. */
    lemma AncestorDepth(a: H, b: H)
      requires Valid() && b in parent
      ensures IsAncestor(a, b) <==>
              a in parent && height[a] <= height[b] && Up(b, height[b] - height[a]) == Some(a)
    {
    }

    lemma AncestorSelf(b: H)
      requires Valid() && b in parent
      ensures IsAncestor(b, b)
    {
      assert Up(b, 0) == Some(b);
    }

    lemma AncestorParent(b: H)
      requires Valid() && b in parent && parent[b].Some?
      ensures IsAncestor(parent[b].value, b)
    {
      assert Linked(b);
      assert Up(b, 1) == Up(parent[b].value, 0);
    }

    lemma AncestorTransitive(a: H, b: H, c: H)
      requires Valid() && c in parent && IsAncestor(b, c) && b in parent && IsAncestor(a, b)
      ensures IsAncestor(a, c)
    {
      var m: nat :| Up(c, m) == Some(b);
      var n: nat :| Up(b, n) == Some(a);
      UpPlus(c, m, n);
    }

    /** Ancestors of one block lie on one line. */
    lemma AncestorsLinear(a: H, b: H, c: H)
      requires Valid() && c in parent && IsAncestor(a, c) && IsAncestor(b, c)
      requires a in parent && b in parent && height[a] <= height[b]
      ensures IsAncestor(a, b)
    {
      AncestorDepth(a, c);
      AncestorDepth(b, c);
      UpPlus(c, height[c] - height[b], height[b] - height[a]);
    }

    /** Two ancestors of one block at the same height are the same block. */
    lemma AncestorUnique(a: H, b: H, c: H)
      requires Valid() && c in parent && IsAncestor(a, c) && IsAncestor(b, c)
      requires a in parent && b in parent && height[a] == height[b]
      ensures a == b
    {
      AncestorDepth(a, c);
      AncestorDepth(b, c);
    }

    lemma LastCommonUnique(x: H, y: H, b0: H, b1: H)
      requires Valid() && b0 in parent && b1 in parent
      requires IsLastCommon(x, b0, b1) && IsLastCommon(y, b0, b1)
      ensures x == y
    {
      AncestorDepth(x, b0);
      AncestorDepth(y, b0);
    }

    lemma RootOfAncestor(a: H, b: H)
      requires Valid() && b in parent && a in parent && IsAncestor(a, b)
      ensures Root(a) == Root(b)
    {
      AncestorTransitive(Root(a), a, b);
      AncestorUnique(Root(a), Root(b), b);
    }

    /** Blocks share an ancestor exactly when they share the oldest one. */
    lemma CommonIffRoot(b0: H, b1: H)
      requires Valid() && b0 in parent && b1 in parent
      ensures (exists x :: x in parent && IsCommon(x, b0, b1)) <==> Root(b0) == Root(b1)
    {
      if x :| x in parent && IsCommon(x, b0, b1) {
        RootOfAncestor(x, b0);
        RootOfAncestor(x, b1);
      }
      if Root(b0) == Root(b1) {
        assert IsCommon(Root(b0), b0, b1);
      }
    }

    /** The tree with one more block; re-adding a stored block changes nothing. */
    function Put(b: H, p: Option<H>, h: nat): Tree<H> {
      Tree(parent[b := p], height[b := h])
    }

    ghost predicate CanPut(b: H, p: Option<H>) {
      && (p.Some? ==> p.value in parent)
      && (b in parent ==> parent[b] == p)
    }

    function HeightFor(p: Option<H>): nat
      requires p.Some? ==> p.value in height
    {
      match p case None => 0 case Some(q) => height[q] + 1
    }

    /** Adding a block keeps the tree valid and every existing ancestor line. */
    lemma PutKeeps(b: H, p: Option<H>)
      requires Valid() && CanPut(b, p)
      ensures var t := Put(b, p, HeightFor(p));
              && t.Valid()
              && (forall c, n: nat | c in parent :: t.Up(c, n) == Up(c, n))
    {
      var t := Put(b, p, HeightFor(p));
      assert b in parent ==> Linked(b);
      forall c | c in t.parent
        ensures t.Linked(c)
      {
        assert c in parent ==> Linked(c);
      }
      forall c, n: nat | c in parent
        ensures t.Up(c, n) == Up(c, n)
      {
        PutKeepsUp(t, c, n);
      }
    }

    lemma {:induction false} PutKeepsUp(t: Tree<H>, c: H, n: nat)
      requires Valid() && t.Valid() && c in parent
      requires parent.Keys <= t.parent.Keys && forall d | d in parent :: t.parent[d] == parent[d]
      ensures t.Up(c, n) == Up(c, n)
      decreases n
    {
      assert Linked(c) && t.Linked(c);
      if n > 0 && parent[c].Some? {
        PutKeepsUp(t, parent[c].value, n - 1);
      }
    }
  }

  /** The blocks whose parent is `k`; for `None`, the genesis blocks. */
  ghost function ChildrenOf<H(!new)>(parent: map<H, Option<H>>, k: Option<H>): set<H> {
    set b | b in parent && parent[b] == k
  }

  lemma ChildrenAfterPut<H(!new)>(parent: map<H, Option<H>>, b: H, p: Option<H>, k: Option<H>)
    requires b in parent ==> parent[b] == p
    ensures ChildrenOf(parent[b := p], k) == ChildrenOf(parent, k) + (if k == p then {b} else {})
  {
  }

  /** A block that is not stored has no stored child. */
  lemma NoChildrenYet<H(!new)>(t: Tree<H>, b: H)
    requires t.Valid() && b !in t.parent
    ensures ChildrenOf(t.parent, Some(b)) == {}
  {
    forall c | c in t.parent
      ensures t.parent[c] != Some(b)
    {
      assert t.Linked(c);
    }
  }

  /** `e` lists exactly the ancestors of `b` at depths 2, 4, 8, ... up to its height. */
  ghost predicate IsExponential<H(!new)>(t: Tree<H>, b: H, e: seq<H>)
    requires t.Valid() && b in t.parent
  {
    && (forall i | 0 <= i < |e| :: t.Up(b, Pow2(i + 1)) == Some(e[i]))
    && (|e| > 0 ==> Pow2(|e|) <= t.height[b])
    && t.height[b] < Pow2(|e| + 1)
  }

  datatype LookupError<H> =
    | NoHeight(unknown: H)
    | NoAncestor(block: H, depth: nat)

  /** A header tree with its power-of-two ancestor index. */
  datatype Index<H(==, !new)> = Index(tree: Tree<H>, exp: map<H, seq<H>>) {
    ghost predicate Valid() {
      && tree.Valid()
      && exp.Keys == tree.parent.Keys
      && forall b {:trigger Exact(b)} | b in exp :: Exact(b)
    }

    ghost predicate Exact(b: H)
      requires tree.Valid() && b in exp && b in tree.parent
    {
      IsExponential(tree, b, exp[b])
    }
  }

  /** What an `n`-th ancestor query answers, in terms of single parent steps. */
  ghost function NthAncestor<H(!new)>(t: Tree<H>, b: H, n: nat): Result<H, LookupError<H>>
    requires t.Valid()
  {
    if n == 0 then Ok(b)
    else if b !in t.parent then Err(NoHeight(b))
    else match t.Up(b, n) case Some(a) => Ok(a) case None => Err(NoAncestor(b, n))
  }

  /** The jump to the largest power of two below `n` exists in the index. */
  lemma ExponentialCovers<H(!new)>(t: Tree<H>, b: H, e: seq<H>, n: nat)
    requires t.Valid() && b in t.parent && IsExponential(t, b, e)
    requires 2 <= n <= t.height[b]
    ensures 1 <= Ilog2(n) <= |e| && t.Up(b, Pow2(Ilog2(n))) == Some(e[Ilog2(n) - 1])
  {
    var k := Ilog2(n);
    assert Pow2(1) == 2;
    if k == 0 {
      assert false;
    }
    if k > |e| {
      Pow2Increasing(|e| + 1, k);
      assert false;
    }
  }

  /** `done` parent steps lead from `block` to `b`. */
  ghost predicate Reached<H(!new)>(t: Tree<H>, block: H, done: nat, b: H)
    requires t.Valid()
  {
    block in t.parent && t.Up(block, done) == Some(b)
  }

  lemma ReachedSelf<H(!new)>(t: Tree<H>, block: H)
    requires t.Valid()
    ensures block in t.parent ==> Reached(t, block, 0, block)
  {
  }

  /** One indexed jump: the largest power of two below the remaining depth. */
  lemma JumpStep<H(!new)>(ix: Index<H>, block: H, done: nat, b: H, n: nat)
    requires ix.Valid() && Reached(ix.tree, block, done, b) && 2 <= n <= ix.tree.height[b]
    ensures 1 <= Ilog2(n) <= |ix.exp[b]| && Reached(ix.tree, block, done + Pow2(Ilog2(n)), ix.exp[b][Ilog2(n) - 1])
  {
    assert ix.Exact(b);
    ExponentialCovers(ix.tree, b, ix.exp[b], n);
    ix.tree.UpPlus(block, done, Pow2(Ilog2(n)));
  }

  /** Jump from `b` by the highest set bit of `n`; `left` is what remains of `n`. */
  method Jump<H(==, !new)>(ix: Index<H>, ghost block: H, ghost done: nat, b: H, n: nat) returns (c: H, left: nat)
    requires ix.Valid() && Reached(ix.tree, block, done, b) && 2 <= n <= ix.tree.height[b]
    ensures left < n && PopCount(left) + 1 == PopCount(n) && Reached(ix.tree, block, done + (n - left), c)
  {
    JumpStep(ix, block, done, b, n);
    PopCountClearTop(n);
    var k := Ilog2(n);
    c, left := ix.exp[b][k - 1], n - Pow2(k);
  }

  lemma LastStep<H(!new)>(t: Tree<H>, block: H, done: nat, b: H)
    requires t.Valid() && Reached(t, block, done, b) && 1 <= t.height[b]
    ensures t.parent[b].Some? && Reached(t, block, done + 1, t.parent[b].value)
  {
    assert t.Linked(b);
    t.UpPlus(block, done, 1);
    assert t.Up(b, 1) == t.Up(t.parent[b].value, 0);
  }

  lemma TooDeep<H(!new)>(t: Tree<H>, block: H, done: nat, b: H, n: nat)
    requires t.Valid() && Reached(t, block, done, b)
    ensures b in t.height && (n > t.height[b] <==> done + n > t.height[block])
  {
  }

  /**
   Walk to the `n`-th ancestor by clearing the highest set bit of `n` in each
   round; `rounds` counts the rounds.
   */
  method GetNthAncestor<H(==, !new)>(ix: Index<H>, block: H, depth: nat)
    returns (r: Result<H, LookupError<H>>, ghost rounds: nat)
    requires ix.Valid()
    ensures r == NthAncestor(ix.tree, block, depth)
    ensures rounds <= PopCount(depth)
  {
    var b, n: nat := block, depth;
    ghost var done := 0;
    rounds := 0;
    while n > 0
      invariant done + n == depth && rounds + PopCount(n) <= PopCount(depth)
      invariant if done == 0 then b == block else Reached(ix.tree, block, done, b) && depth <= ix.tree.height[block]
    {
      rounds := rounds + 1;
      PopCountPositive(n);
      if b !in ix.tree.height {
        return Err(NoHeight(b)), rounds;
      }
      ReachedSelf(ix.tree, block);
      TooDeep(ix.tree, block, done, b, n);
      if n > ix.tree.height[b] {
        return Err(NoAncestor(block, depth)), rounds;
      }
      if n == 1 {
        LastStep(ix.tree, block, done, b);
        return Ok(ix.tree.parent[b].value), rounds;
      }
      ghost var was := n;
      b, n := Jump(ix, block, done, b, n);
      done := done + (was - n);
    }
    r := Ok(b);
  }

  /**
   The index row for a new block whose parent is `p`: repeatedly double the
   depth. The rows it reads belong to proper ancestors of the new block.
   */
  method BuildExponential<H(==, !new)>(ix: Index<H>, p: Option<H>, height: nat) returns (e: seq<H>)
    requires ix.Valid() && (p.Some? ==> p.value in ix.tree.parent)
    requires height == ix.tree.HeightFor(p) && height < U32_LIMIT
    ensures forall b | ix.tree.CanPut(b, p) :: RowFits(ix.tree, b, p, e)
  {
    e := [];
    assert Pow2(1) == 2 && Pow2(2) == 4;
    if height >= 2 {
      var grandparent, _ := GetNthAncestor(ix, p.value, 1);
      e := [grandparent.value];
      var nextDepth := 4;
      while height >= nextDepth
        invariant |e| >= 1 && nextDepth == Pow2(|e| + 1) && Pow2(|e|) <= height
        invariant forall i | 0 <= i < |e| :: ix.tree.Up(p.value, Pow2(i + 1) - 1) == Some(e[i])
        decreases 2 * height - nextDepth
      {
        assert nextDepth < U32_LIMIT;
        ix.tree.UpPlus(p.value, Pow2(|e|) - 1, nextDepth / 2);
        var next, _ := GetNthAncestor(ix, e[|e| - 1], nextDepth / 2);
        e := e + [next.value];
        nextDepth := nextDepth * 2;
      }
    }
    forall b | ix.tree.CanPut(b, p)
      ensures RowFits(ix.tree, b, p, e)
    {
      RowForPut(ix.tree, b, p, e);
    }
  }

  /** `e` is the exact index row of `b` once `b` is stored under `p`. */
  ghost predicate RowFits<H(!new)>(t: Tree<H>, b: H, p: Option<H>, e: seq<H>)
    requires t.Valid() && t.CanPut(b, p)
  {
    var u := t.Put(b, p, t.HeightFor(p));
    u.Valid() && IsExponential(u, b, e)
  }

  lemma RowForPut<H(!new)>(t: Tree<H>, b: H, p: Option<H>, e: seq<H>)
    requires t.Valid() && t.CanPut(b, p) && (|e| > 0 ==> p.Some?)
    requires p.Some? ==> forall i | 0 <= i < |e| :: t.Up(p.value, Pow2(i + 1) - 1) == Some(e[i])
    requires |e| > 0 ==> Pow2(|e|) <= t.HeightFor(p)
    requires t.HeightFor(p) < Pow2(|e| + 1)
    ensures RowFits(t, b, p, e)
  {
    var u := t.Put(b, p, t.HeightFor(p));
    t.PutKeeps(b, p);
    forall i | 0 <= i < |e|
      ensures u.Up(b, Pow2(i + 1)) == Some(e[i])
    {
      assert u.Up(b, Pow2(i + 1)) == u.Up(p.value, Pow2(i + 1) - 1);
    }
  }

  /** The index after adding one block with a freshly built row is exact again. */
  lemma PutIndex<H(!new)>(ix: Index<H>, b: H, p: Option<H>, e: seq<H>)
    requires ix.Valid() && ix.tree.CanPut(b, p)
    requires RowFits(ix.tree, b, p, e)
    ensures Index(ix.tree.Put(b, p, ix.tree.HeightFor(p)), ix.exp[b := e]).Valid()
  {
    var u := Index(ix.tree.Put(b, p, ix.tree.HeightFor(p)), ix.exp[b := e]);
    ix.tree.PutKeeps(b, p);
    forall c | c in u.exp
      ensures u.Exact(c)
    {
      if c != b {
        assert ix.Exact(c);
        assert ix.tree.Linked(c) && u.tree.height[c] == ix.tree.height[c];
        forall i | 0 <= i < |ix.exp[c]|
          ensures u.tree.Up(c, Pow2(i + 1)) == Some(u.exp[c][i])
        {
          assert ix.tree.Up(c, Pow2(i + 1)) == Some(ix.exp[c][i]);
        }
      }
    }
  }

  /** Is `b` a descendant of `a`? Decided with one indexed lookup. */
  method IsDescendant<H(==, !new)>(ix: Index<H>, a: H, b: H) returns (r: Result<bool, LookupError<H>>)
    requires ix.Valid()
    ensures r == DescendantAnswer(ix.tree, a, b)
  {
    if a == b {
      if b in ix.tree.parent {
        ix.tree.AncestorSelf(b);
      }
      return Ok(true);
    }
    if a !in ix.tree.height {
      return Err(NoHeight(a));
    }
    if b !in ix.tree.height {
      return Err(NoHeight(b));
    }
    ix.tree.AncestorDepth(a, b);
    if ix.tree.height[a] > ix.tree.height[b] {
      return Ok(false);
    }
    var x, _ := GetNthAncestor(ix, b, ix.tree.height[b] - ix.tree.height[a]);
    r := Ok(a == x.value);
  }

  /** Equal hashes answer at once, even when no such block is stored. */
  ghost function DescendantAnswer<H(!new)>(t: Tree<H>, a: H, b: H): Result<bool, LookupError<H>>
    requires t.Valid()
  {
    if a == b then Ok(true)
    else if a !in t.parent then Err(NoHeight(a))
    else if b !in t.parent then Err(NoHeight(b))
    else Ok(t.IsAncestor(a, b))
  }

  /** `u32` sums in the binary search stay in range up to this height. */
  const MAX_SEARCH_HEIGHT: nat := 0x8000_0000

  ghost predicate Searchable<H(!new)>(t: Tree<H>) {
    forall b | b in t.height :: t.height[b] <= MAX_SEARCH_HEIGHT
  }

  /** Once two blocks of equal height agree at a depth they agree at every larger depth. */
  lemma AgreementSpreads<H(!new)>(t: Tree<H>, b0: H, b1: H, d: nat, e: nat)
    requires t.Valid() && b0 in t.parent && b1 in t.parent && t.height[b0] == t.height[b1]
    requires d <= e <= t.height[b0] && t.Up(b0, d) == t.Up(b1, d)
    ensures t.Up(b0, e) == t.Up(b1, e)
  {
    t.UpPlus(b0, d, e - d);
    t.UpPlus(b1, d, e - d);
  }

  /** Truncating the taller block to the lower height keeps the last common ancestor. */
  lemma LastCommonOfTruncated<H(!new)>(t: Tree<H>, x: H, b0: H, b1: H, c0: H, c1: H)
    requires t.Valid() && b0 in t.parent && b1 in t.parent && c0 in t.parent && c1 in t.parent
    requires t.IsAncestor(c0, b0) && t.IsAncestor(c1, b1) && t.height[c0] == t.height[c1]
    requires c0 == b0 || c1 == b1
    requires x in t.parent && t.IsLastCommon(x, c0, c1)
    ensures t.IsLastCommon(x, b0, b1)
  {
    t.AncestorTransitive(x, c0, b0);
    t.AncestorTransitive(x, c1, b1);
    forall y | y in t.parent && t.IsCommon(y, b0, b1)
      ensures t.height[y] <= t.height[x]
    {
      t.AncestorDepth(y, b0);
      t.AncestorDepth(y, b1);
      t.AncestorsLinear(y, c0, b0);
      t.AncestorsLinear(y, c1, b1);
    }
  }

  /** Equal heights, different blocks: depth `d` is the first agreement, so it is the last common ancestor. */
  lemma FirstAgreement<H(!new)>(t: Tree<H>, b0: H, b1: H, d: nat)
    requires t.Valid() && b0 in t.parent && b1 in t.parent && t.height[b0] == t.height[b1]
    requires 1 <= d <= t.height[b0] && t.Up(b0, d) == t.Up(b1, d) && t.Up(b0, d - 1) != t.Up(b1, d - 1)
    ensures t.IsLastCommon(t.Up(b0, d).value, b0, b1)
  {
    var x := t.Up(b0, d).value;
    forall y | y in t.parent && t.IsCommon(y, b0, b1)
      ensures t.height[y] <= t.height[x]
    {
      t.AncestorDepth(y, b0);
      t.AncestorDepth(y, b1);
      if t.height[y] > t.height[x] {
        AgreementSpreads(t, b0, b1, t.height[b0] - t.height[y], d - 1);
      }
    }
  }

  /** Binary search for the first depth at which two equally high, related blocks agree. */
  method SearchAgreement<H(==, !new)>(ix: Index<H>, b0: H, b1: H) returns (d: nat)
    requires ix.Valid() && b0 in ix.tree.parent && b1 in ix.tree.parent && b0 != b1
    requires ix.tree.height[b0] == ix.tree.height[b1] <= MAX_SEARCH_HEIGHT
    ensures d <= ix.tree.height[b0]
    ensures ix.tree.Root(b0) == ix.tree.Root(b1) ==>
              1 <= d && ix.tree.Up(b0, d) == ix.tree.Up(b1, d) && ix.tree.Up(b0, d - 1) != ix.tree.Up(b1, d - 1)
    ensures ix.tree.Root(b0) != ix.tree.Root(b1) ==> d == ix.tree.height[b0]
  {
    var t := ix.tree;
    var lo := 1;
    d := t.height[b0];
    while lo < d
      invariant 1 <= lo && d <= t.height[b0] && (d < lo ==> d == 0 == t.height[b0])
      invariant t.Root(b0) == t.Root(b1) ==> t.Up(b0, d) == t.Up(b1, d)
      invariant t.Root(b0) != t.Root(b1) ==> d == t.height[b0]
      invariant lo <= t.height[b0] + 1 && t.Up(b0, lo - 1) != t.Up(b1, lo - 1)
    {
      assert lo + d < U32_LIMIT;
      var mid := (lo + d) / 2;
      var a0, _ := GetNthAncestor(ix, b0, mid);
      var a1, _ := GetNthAncestor(ix, b1, mid);
      if a0 == a1 {
        AgreementSpreads(t, b0, b1, mid, t.height[b0]);
        d := mid;
      } else {
        lo := mid + 1;
      }
    }
  }

  /** Cut the taller of two blocks down to the height of the lower one. */
  method Equalise<H(==, !new)>(ix: Index<H>, b0: H, b1: H) returns (c0: H, c1: H)
    requires ix.Valid() && b0 in ix.tree.parent && b1 in ix.tree.parent
    ensures c0 in ix.tree.parent && c1 in ix.tree.parent
    ensures ix.tree.height[c0] == ix.tree.height[c1] == Min(ix.tree.height[b0], ix.tree.height[b1])
    ensures ix.tree.IsAncestor(c0, b0) && ix.tree.IsAncestor(c1, b1) && (c0 == b0 || c1 == b1)
  {
    c0, c1 := b0, b1;
    ix.tree.AncestorSelf(b0);
    ix.tree.AncestorSelf(b1);
    if ix.tree.height[b0] < ix.tree.height[b1] {
      var x, _ := GetNthAncestor(ix, b1, ix.tree.height[b1] - ix.tree.height[b0]);
      c1 := x.value;
    } else if ix.tree.height[b0] > ix.tree.height[b1] {
      var x, _ := GetNthAncestor(ix, b0, ix.tree.height[b0] - ix.tree.height[b1]);
      c0 := x.value;
    }
  }

  /** The highest block that is an ancestor of both, or `None` when they share none. */
  method LastCommonAncestor<H(==, !new)>(ix: Index<H>, b0: H, b1: H)
    returns (r: Result<Option<H>, LookupError<H>>)
    requires ix.Valid() && Searchable(ix.tree)
    ensures b0 !in ix.tree.parent ==> r == Err(NoHeight(b0))
    ensures b0 in ix.tree.parent && b1 !in ix.tree.parent ==> r == Err(NoHeight(b1))
    ensures b0 in ix.tree.parent && b1 in ix.tree.parent ==>
              && r.Ok?
              && (r.value.Some? ==> r.value.value in ix.tree.parent && ix.tree.IsLastCommon(r.value.value, b0, b1))
              && (r.value.None? <==> ix.tree.Root(b0) != ix.tree.Root(b1))
  {
    if b0 !in ix.tree.height {
      return Err(NoHeight(b0));
    }
    if b1 !in ix.tree.height {
      return Err(NoHeight(b1));
    }
    var c0, c1 := Equalise(ix, b0, b1);
    ix.tree.RootOfAncestor(c0, b0);
    ix.tree.RootOfAncestor(c1, b1);
    if c0 == c1 {
      ix.tree.AncestorSelf(c0);
      LastCommonSelf(ix.tree, c0);
      LastCommonOfTruncated(ix.tree, c0, b0, b1, c0, c1);
      return Ok(Some(c0));
    }
    var oldest0, _ := GetNthAncestor(ix, c0, ix.tree.height[c0]);
    var oldest1, _ := GetNthAncestor(ix, c1, ix.tree.height[c0]);
    if oldest0 != oldest1 {
      return Ok(None);
    }
    var d := SearchAgreement(ix, c0, c1);
    FirstAgreement(ix.tree, c0, c1, d);
    var x, _ := GetNthAncestor(ix, c0, d);
    LastCommonOfTruncated(ix.tree, x.value, b0, b1, c0, c1);
    r := Ok(Some(x.value));
  }

  lemma LastCommonSelf<H(!new)>(t: Tree<H>, b: H)
    requires t.Valid() && b in t.parent
    ensures t.IsLastCommon(b, b, b)
  {
    t.AncestorSelf(b);
    forall y | y in t.parent && t.IsCommon(y, b, b)
      ensures t.height[y] <= t.height[b]
    {
      t.AncestorDepth(y, b);
    }
  }

  /**
   The variant used on the mainchain tree skips the shared-lineage test. It is
   right exactly when the blocks share their oldest ancestor; otherwise it
   returns the oldest ancestor of the first block.
   */
  method LastCommonAncestorUnchecked<H(==, !new)>(ix: Index<H>, b0: H, b1: H)
    returns (r: Result<H, LookupError<H>>)
    requires ix.Valid() && Searchable(ix.tree)
    ensures b0 !in ix.tree.parent ==> r == Err(NoHeight(b0))
    ensures b0 in ix.tree.parent && b1 !in ix.tree.parent ==> r == Err(NoHeight(b1))
    ensures b0 in ix.tree.parent && b1 in ix.tree.parent ==>
              r.Ok? && IsUncheckedMeet(ix.tree, b0, b1, r.value)
  {
    if b0 !in ix.tree.height {
      return Err(NoHeight(b0));
    }
    if b1 !in ix.tree.height {
      return Err(NoHeight(b1));
    }
    var c0, c1 := Equalise(ix, b0, b1);
    ix.tree.RootOfAncestor(c0, b0);
    ix.tree.RootOfAncestor(c1, b1);
    if c0 == c1 {
      LastCommonSelf(ix.tree, c0);
      LastCommonOfTruncated(ix.tree, c0, b0, b1, c0, c1);
      return Ok(c0);
    }
    var d := SearchAgreement(ix, c0, c1);
    if ix.tree.Root(c0) == ix.tree.Root(c1) {
      FirstAgreement(ix.tree, c0, c1, d);
      LastCommonOfTruncated(ix.tree, ix.tree.Up(c0, d).value, b0, b1, c0, c1);
    }
    var x, _ := GetNthAncestor(ix, c0, d);
    r := Ok(x.value);
  }

  ghost predicate IsUncheckedMeet<H(!new)>(t: Tree<H>, b0: H, b1: H, x: H)
    requires t.Valid() && b0 in t.parent && b1 in t.parent
  {
    && x in t.parent
    && (if t.Root(b0) == t.Root(b1) then t.IsLastCommon(x, b0, b1) else x == t.Root(b0))
  }

  /** The unchecked answer is a common ancestor exactly when the two blocks share a genesis. */
  lemma UncheckedMeetIffSharedRoot<H(!new)>(t: Tree<H>, b0: H, b1: H, x: H)
    requires t.Valid() && b0 in t.parent && b1 in t.parent && IsUncheckedMeet(t, b0, b1, x)
    ensures t.IsLastCommon(x, b0, b1) <==> t.Root(b0) == t.Root(b1)
  {
    t.CommonIffRoot(b0, b1);
  }

  /** Are the two blocks on one line? */
  method SharedLineage<H(==, !new)>(ix: Index<H>, b0: H, b1: H) returns (r: Result<bool, LookupError<H>>)
    requires ix.Valid()
    ensures b0 !in ix.tree.parent ==> r == Err(NoHeight(b0))
    ensures b0 in ix.tree.parent && b1 !in ix.tree.parent ==> r == Err(NoHeight(b1))
    ensures b0 in ix.tree.parent && b1 in ix.tree.parent ==>
              r == Ok(ix.tree.IsAncestor(b0, b1) || ix.tree.IsAncestor(b1, b0))
  {
    if b0 !in ix.tree.height {
      return Err(NoHeight(b0));
    }
    if b1 !in ix.tree.height {
      return Err(NoHeight(b1));
    }
    var c0, c1 := Equalise(ix, b0, b1);
    ix.tree.AncestorDepth(b0, b1);
    ix.tree.AncestorDepth(b1, b0);
    ix.tree.AncestorDepth(c0, b0);
    ix.tree.AncestorDepth(c1, b1);
    r := Ok(c0 == c1);
  }
}
