/**
 Handing out the mainchain blocks between two sidechain blocks. The batch lists
 the blocks newest first; each sidechain block takes blocks from its old end up
 to the mainchain block that it was built on.
 */
module Segments {
  import opened Wrappers
  import opened ChainTypes
  import opened HeaderTree
  import opened ArchiveDb
  import opened AncestorIter

  /** How many blocks are popped until `target` comes out, or all of them. */
  function Popped(batch: seq<MainHash>, target: MainHash): (n: nat)
    ensures n <= |batch| && (batch != [] ==> n > 0)
  {
    if batch == [] then 0
    else if batch[|batch| - 1] == target then 1
    else 1 + Popped(batch[..|batch| - 1], target)
  }

  /** What stays in the batch. */
  function Left(batch: seq<MainHash>, target: MainHash): seq<MainHash> {
    batch[..|batch| - Popped(batch, target)]
  }

  /** The popped blocks, oldest first. */
  ghost function Taken(batch: seq<MainHash>, target: MainHash): seq<MainHash> {
    Reversed(batch[|batch| - Popped(batch, target)..])
  }

  method Take(batch: seq<MainHash>, target: MainHash) returns (taken: seq<MainHash>, left: seq<MainHash>)
    ensures taken == Taken(batch, target) && left == Left(batch, target)
  {
    taken, left := [], batch;
    while left != []
      invariant |left| <= |batch| && left == batch[..|left|] && taken == Reversed(batch[|left|..])
      invariant Popped(batch, target) == |batch| - |left| + Popped(left, target)
    {
      var m := left[|left| - 1];
      ghost var was := |left|;
      assert batch[was - 1..] == [m] + batch[was..];
      ReversedAppend([m], batch[was..]);
      left := left[..|left| - 1];
      taken := taken + [m];
      if m == target {
        break;
      }
    }
  }

  lemma {:induction false} ReversedAppend<T>(a: seq<T>, b: seq<T>)
    ensures Reversed(a + b) == Reversed(b) + Reversed(a)
  {
    if b == [] {
      assert a + b == a;
    } else {
      assert (a + b)[..|a + b| - 1] == a + b[..|b| - 1];
      ReversedAppend(a, b[..|b| - 1]);
    }
  }

  /** One segment per target, in order. */
  ghost function HandOut(batch: seq<MainHash>, targets: seq<MainHash>): (s: seq<seq<MainHash>>)
    ensures |s| == |targets|
    decreases |targets|
  {
    if targets == [] then []
    else [Taken(batch, targets[0])] + HandOut(Left(batch, targets[0]), targets[1..])
  }

  /** What is left in the batch after all targets. */
  ghost function LeftAfter(batch: seq<MainHash>, targets: seq<MainHash>): seq<MainHash>
    decreases |targets|
  {
    if targets == [] then batch else LeftAfter(Left(batch, targets[0]), targets[1..])
  }

  ghost function Joined(segments: seq<seq<MainHash>>): seq<MainHash> {
    if segments == [] then [] else segments[0] + Joined(segments[1..])
  }

  /** Whatever the targets: segments never repeat, skip or reorder a block; what they did not reach is left over. */
  lemma {:induction false} NothingLost(batch: seq<MainHash>, targets: seq<MainHash>)
    ensures Joined(HandOut(batch, targets)) + Reversed(LeftAfter(batch, targets)) == Reversed(batch)
    decreases |targets|
  {
    if targets != [] {
      var first, left := Taken(batch, targets[0]), Left(batch, targets[0]);
      var rest := HandOut(left, targets[1..]);
      assert HandOut(batch, targets)[0] == first && HandOut(batch, targets)[1..] == rest;
      NothingLost(left, targets[1..]);
      assert batch == left + batch[|batch| - Popped(batch, targets[0])..];
      ReversedAppend(left, batch[|batch| - Popped(batch, targets[0])..]);
    }
  }

  /** What is left in the batch after the first `n` targets. */
  ghost function LeftAt(batch: seq<MainHash>, targets: seq<MainHash>, n: nat): seq<MainHash>
    requires n <= |targets|
  {
    if n == 0 then batch else Left(LeftAt(batch, targets, n - 1), targets[n - 1])
  }

  /** What target `i` receives. */
  ghost function SegmentAt(batch: seq<MainHash>, targets: seq<MainHash>, i: nat): seq<MainHash>
    requires i < |targets|
  {
    Taken(LeftAt(batch, targets, i), targets[i])
  }

  lemma {:induction false} LeftAtRest(batch: seq<MainHash>, targets: seq<MainHash>, n: nat)
    requires 0 < n <= |targets|
    ensures LeftAt(batch, targets, n) == LeftAt(Left(batch, targets[0]), targets[1..], n - 1)
  {
    if n > 1 {
      LeftAtRest(batch, targets, n - 1);
    }
  }

  /** The segments handed out one by one are those of the whole hand-out. */
  lemma {:induction false} HandOutAt(batch: seq<MainHash>, targets: seq<MainHash>, i: nat)
    requires i < |targets|
    ensures HandOut(batch, targets)[i] == SegmentAt(batch, targets, i)
    decreases i
  {
    if i > 0 {
      HandOutAt(Left(batch, targets[0]), targets[1..], i - 1);
      LeftAtRest(batch, targets, i);
    }
  }

  // ---- segments along one mainchain line ----

  /** `batch` lists the ancestors of `top`, newest first. */
  ghost predicate IsLine(t: Tree<MainHash>, top: MainHash, batch: seq<MainHash>)
    requires t.Valid() && top in t.parent
  {
    forall i | 0 <= i < |batch| :: t.Up(top, i) == Some(batch[i])
  }

  /** A target in the batch is popped to exactly. */
  lemma {:induction false} PoppedExactly(t: Tree<MainHash>, top: MainHash, batch: seq<MainHash>, j: nat)
    requires t.Valid() && top in t.parent && IsLine(t, top, batch) && j < |batch|
    ensures Popped(batch, batch[j]) == |batch| - j
    decreases |batch|
  {
    var n := |batch| - 1;
    if j < n {
      assert t.Up(top, n) == Some(batch[n]) && t.Up(top, j) == Some(batch[j]);
      assert batch[n] != batch[j];
      PoppedExactly(t, top, batch[..n], j);
    }
  }

  /** Targets rise along the line of `top` and end at it; `below` bounds them from below. */
  ghost predicate Climbs(t: Tree<MainHash>, top: MainHash, targets: seq<MainHash>, below: int)
    requires t.Valid() && top in t.parent
  {
    && (forall i | 0 <= i < |targets| :: targets[i] in t.parent && t.IsAncestor(targets[i], top))
    && (forall i, j | 0 <= i < j < |targets| :: t.height[targets[i]] < t.height[targets[j]])
    && (forall i | 0 <= i < |targets| :: below < t.height[targets[i]])
  }

  /** Each segment runs, one block per height, from just above the previous target up to its own. */
  ghost predicate Consecutive(t: Tree<MainHash>, targets: seq<MainHash>, segments: seq<seq<MainHash>>, below: int)
    requires t.Valid() && -1 <= below && |segments| == |targets|
    decreases |targets|
  {
    targets == [] ||
    (&& targets[0] in t.parent && segments[0] == Rising(t, targets[0], below + 1)
     && Consecutive(t, targets[1..], segments[1..], t.height[targets[0]]))
  }

  /** The part of a line below one of its blocks is that block's own line. */
  lemma LineSuffix(t: Tree<MainHash>, top: MainHash, batch: seq<MainHash>, j: nat, from: nat)
    requires t.Valid() && top in t.parent && IsLine(t, top, batch) && j < |batch|
    requires |batch| == t.height[top] + 1 - from
    ensures Reversed(batch[j..]) == Rising(t, batch[j], from)
  {
    var s := batch[j..];
    assert t.Up(top, j) == Some(batch[j]);
    ReversedIndex(s);
    forall i | 0 <= i < |s|
      ensures Reversed(s)[i] == Rising(t, batch[j], from)[i]
    {
      t.UpPlus(top, j, |s| - 1 - i);
      assert t.Up(top, |batch| - 1 - i) == Some(batch[|batch| - 1 - i]);
    }
  }

  /** The first segment runs up to the first target, and leaves the line above it. */
  lemma FirstSegment(t: Tree<MainHash>, top: MainHash, batch: seq<MainHash>, first: MainHash, below: int)
    requires t.Valid() && top in t.parent && IsLine(t, top, batch) && -1 <= below && |batch| == t.height[top] - below
    requires first in t.parent && t.IsAncestor(first, top) && below < t.height[first]
    ensures Taken(batch, first) == Rising(t, first, below + 1)
    ensures t.height[first] <= t.height[top] && Left(batch, first) == batch[..t.height[top] - t.height[first]]
  {
    t.AncestorDepth(first, top);
    var j: nat := t.height[top] - t.height[first];
    assert batch[j] == first;
    PoppedExactly(t, top, batch, j);
    LineSuffix(t, top, batch, j, below + 1);
  }

  lemma ClimbsRest(t: Tree<MainHash>, top: MainHash, targets: seq<MainHash>, below: int)
    requires t.Valid() && top in t.parent && |targets| > 0 && Climbs(t, top, targets, below)
    ensures Climbs(t, top, targets[1..], t.height[targets[0]])
  {
  }

  /**
   When the targets climb one mainchain line to its top, the segments are
   consecutive, disjoint, oldest first, each ends at its target, and none of the
   blocks above `below` is missing.
   */
  lemma {:induction false} SegmentsFit(t: Tree<MainHash>, top: MainHash, batch: seq<MainHash>, targets: seq<MainHash>,
                                       below: int)
    requires t.Valid() && top in t.parent && IsLine(t, top, batch) && -1 <= below
    requires |batch| == t.height[top] - below && Climbs(t, top, targets, below)
    requires |targets| > 0 && targets[|targets| - 1] == top
    ensures Consecutive(t, targets, HandOut(batch, targets), below)
    ensures LeftAfter(batch, targets) == []
    decreases |targets|
  {
    FirstSegment(t, top, batch, targets[0], below);
    ClimbsRest(t, top, targets, below);
    var left := batch[..t.height[top] - t.height[targets[0]]];
    if |targets| == 1 {
      assert left == [] && targets[1..] == [];
    } else {
      SegmentsFit(t, top, left, targets[1..], t.height[targets[0]]);
    }
  }

  lemma {:induction false} AbsentTargetPopsAll(batch: seq<MainHash>, target: MainHash)
    requires target !in batch
    ensures Popped(batch, target) == |batch|
  {
    if batch != [] {
      AbsentTargetPopsAll(batch[..|batch| - 1], target);
    }
  }

  /** A target that is not in the batch takes everything: later targets get nothing. */
  lemma AbsentTargetTakesAll(batch: seq<MainHash>, target: MainHash)
    requires target !in batch
    ensures Taken(batch, target) == Reversed(batch) && Left(batch, target) == []
  {
    AbsentTargetPopsAll(batch, target);
    assert batch[0..] == batch;
  }

  // ---- validly committed sidechain blocks climb the mainchain ----

  /** A parent was built on a strict mainchain ancestor of the block its child was built on. */
  lemma ParentBuiltBelow(c: Chains, b: BlockHash, m: MainHash) returns (a: MainHash)
    requires c.Sound() && b in c.side.headers && c.side.headers[b].prevSide.Some? && c.Verifies(b, m)
    ensures c.side.headers[b].prevSide.value in c.side.headers
    ensures a in c.main.headers && c.Verifies(c.side.headers[b].prevSide.value, a)
    ensures c.side.headers[b].prevMain in c.main.headers && c.main.Tree().IsAncestor(a, c.side.headers[b].prevMain)
    ensures c.main.heights[a] <= c.main.heights[c.side.headers[b].prevMain]
  {
    var t := c.main.Tree();
    assert c.side.Tree().Linked(b);
    var p := c.side.headers[b].prevSide.value;
    a :| a in c.main.headers && t.IsAncestor(a, m) && c.Verifies(p, a);
    assert a != m;
    t.AncestorDepth(a, m);
    assert t.Linked(m) && InfoFollows(c.main.headers, c.infos, m);
    var d: nat := t.height[m] - t.height[a];
    assert t.Up(m, d) == t.Up(t.parent[m].value, d - 1);
  }

  /** Every ancestor of a validly committed block is validly committed. */
  lemma {:induction false} VerifiedUp(c: Chains, b: BlockHash, m: MainHash, k: nat) returns (a: MainHash)
    requires c.Sound() && b in c.side.headers && c.Verifies(b, m) && k <= c.side.heights[b]
    ensures a in c.main.headers && c.Verifies(c.side.Tree().Up(b, k).value, a)
    decreases k
  {
    assert c.side.Tree().Linked(b);
    if k == 0 {
      a := m;
    } else {
      a := ParentBuiltBelow(c, b, m);
      a := VerifiedUp(c, c.side.headers[b].prevSide.value, a, k - 1);
    }
  }

  /** The mainchain block that `x` was built on is strictly below the one `y` was built on, or `x` was built on none. */
  ghost predicate BuiltLower(c: Chains, x: BlockHash, y: BlockHash)
    requires c.TreesValid()
  {
    && x in c.side.headers && y in c.side.headers
    && var p, q := c.side.headers[x].prevMain, c.side.headers[y].prevMain;
    && q in c.main.headers
    && (p == ZERO_HASH || (p in c.main.headers && c.main.Tree().IsAncestor(p, q)
                           && c.main.heights[p] < c.main.heights[q]))
  }

  lemma {:induction false} AncestorBuiltLower(c: Chains, b: BlockHash, m: MainHash, k: nat)
    requires c.Sound() && b in c.side.headers && c.Verifies(b, m) && 0 < k <= c.side.heights[b]
    ensures BuiltLower(c, c.side.Tree().Up(b, k).value, b)
    decreases k
  {
    var t := c.main.Tree();
    assert c.side.Tree().Linked(b);
    var p := c.side.headers[b].prevSide.value;
    var a := ParentBuiltBelow(c, b, m);
    assert t.Linked(a);
    ParentLower(c, p, a, b);
    assert c.side.Tree().Up(b, k) == c.side.Tree().Up(p, k - 1);
    if k > 1 {
      AncestorBuiltLower(c, p, a, k - 1);
      var x := c.side.Tree().Up(p, k - 1).value;
      if c.side.headers[x].prevMain != ZERO_HASH {
        t.AncestorTransitive(c.side.headers[x].prevMain, c.side.headers[p].prevMain, c.side.headers[b].prevMain);
      }
    }
  }

  lemma ParentLower(c: Chains, p: BlockHash, a: MainHash, b: BlockHash)
    requires c.Sound() && p in c.side.headers && b in c.side.headers && a in c.main.headers && c.Verifies(p, a)
    requires c.side.headers[b].prevMain in c.main.headers && c.main.Tree().IsAncestor(a, c.side.headers[b].prevMain)
    ensures BuiltLower(c, p, b)
  {
    var t := c.main.Tree();
    var q := c.side.headers[b].prevMain;
    assert t.Linked(a);
    t.AncestorDepth(a, q);
    if c.main.headers[a].prev != ZERO_HASH {
      t.AncestorParent(a);
      t.AncestorTransitive(c.main.headers[a].prev, a, q);
    }
  }

  /** `path` lists blocks from `top` down through parents. */
  ghost predicate IsPath(c: Chains, top: BlockHash, path: seq<Header>)
    requires c.TreesValid() && top in c.side.headers
  {
    forall i | 0 <= i < |path| :: OnPath(c, top, path, i)
  }

  ghost predicate OnPath(c: Chains, top: BlockHash, path: seq<Header>, i: nat)
    requires c.TreesValid() && top in c.side.headers && i < |path|
  {
    && c.side.Tree().Up(top, i) == Some(path[i].hash)
    && path[i].hash in c.side.headers && c.side.headers[path[i].hash] == path[i]
  }

  /** The mainchain blocks that the blocks of a path were built on, oldest first. */
  ghost function Targets(path: seq<Header>): (s: seq<MainHash>)
    ensures |s| == |path| && forall i | 0 <= i < |s| :: s[i] == path[|path| - 1 - i].prevMain
  {
    seq(|path|, i requires 0 <= i < |path| => path[|path| - 1 - i].prevMain)
  }

  /** Height of the mainchain block that `b` was built on; -1 for none. */
  ghost function BuiltAt(c: Chains, b: Option<BlockHash>): int
    requires c.TreesValid() && (b.Some? ==> b.value in c.side.headers)
  {
    if b.None? || c.side.headers[b.value].prevMain !in c.main.headers then -1
    else c.main.heights[c.side.headers[b.value].prevMain]
  }

  /** `path` runs from `top` down to just above `base`, or to the genesis block. */
  ghost predicate PathAbove(c: Chains, top: BlockHash, base: Option<BlockHash>, path: seq<Header>)
    requires c.TreesValid() && top in c.side.headers
  {
    && IsPath(c, top, path)
    && (match base
        case None => |path| == c.side.heights[top] + 1
        case Some(a) =>
          a in c.side.headers && |path| <= c.side.heights[top] && c.side.Tree().Up(top, |path|) == Some(a))
  }

  lemma PathPair(c: Chains, top: BlockHash, m: MainHash, path: seq<Header>, i: nat, j: nat)
    requires c.Sound() && top in c.side.headers && c.Verifies(top, m) && IsPath(c, top, path) && i < j < |path|
    ensures BuiltLower(c, path[j].hash, path[i].hash)
    ensures path[j].prevMain == c.side.headers[path[j].hash].prevMain
            && path[i].prevMain == c.side.headers[path[i].hash].prevMain
  {
    assert OnPath(c, top, path, i) && OnPath(c, top, path, j);
    c.side.Tree().UpPlus(top, i, j - i);
    var a := VerifiedUp(c, top, m, i);
    AncestorBuiltLower(c, path[i].hash, a, j - i);
  }

  lemma PathToBase(c: Chains, top: BlockHash, m: MainHash, base: BlockHash, path: seq<Header>, i: nat)
    requires c.Sound() && top in c.side.headers && c.Verifies(top, m) && PathAbove(c, top, Some(base), path)
             && i < |path|
    ensures BuiltLower(c, base, path[i].hash) && path[i].prevMain == c.side.headers[path[i].hash].prevMain
  {
    assert OnPath(c, top, path, i);
    c.side.Tree().UpPlus(top, i, |path| - i);
    var a := VerifiedUp(c, top, m, i);
    AncestorBuiltLower(c, path[i].hash, a, |path| - i);
  }

  /** The oldest block of the path was built on a mainchain block. */
  ghost predicate OldestBuilt(path: seq<Header>) {
    |path| > 0 && path[|path| - 1].prevMain != ZERO_HASH
  }

  /** `path`, newest first, was built on ever lower blocks of the line of `top`. */
  ghost predicate Descends(t: Tree<MainHash>, top: MainHash, path: seq<Header>, below: int)
    requires t.Valid() && top in t.parent
  {
    && (forall i | 0 <= i < |path| :: OnLine(t, top, path[i].prevMain, below))
    && (forall i, j | 0 <= i < j < |path| :: Lower(t, path[j].prevMain, path[i].prevMain))
  }

  ghost predicate OnLine(t: Tree<MainHash>, top: MainHash, m: MainHash, below: int)
    requires t.Valid() && top in t.parent
  {
    m in t.parent && t.IsAncestor(m, top) && below < t.height[m]
  }

  ghost predicate Lower(t: Tree<MainHash>, p: MainHash, q: MainHash) {
    p in t.height && q in t.height && t.height[p] < t.height[q]
  }

  lemma DescendingPathClimbs(t: Tree<MainHash>, top: MainHash, path: seq<Header>, below: int)
    requires t.Valid() && top in t.parent && Descends(t, top, path, below)
    ensures Climbs(t, top, Targets(path), below)
  {
    var n := |path|;
    var targets := Targets(path);
    forall i | 0 <= i < n
      ensures OnLine(t, top, targets[i], below)
    {
      assert OnLine(t, top, path[n - 1 - i].prevMain, below);
    }
    forall i, j | 0 <= i < j < n
      ensures Lower(t, targets[i], targets[j])
    {
      assert Lower(t, path[n - 1 - i].prevMain, path[n - 1 - j].prevMain);
    }
    ClimbsFrom(t, top, targets, below);
  }

  lemma ClimbsFrom(t: Tree<MainHash>, top: MainHash, targets: seq<MainHash>, below: int)
    requires t.Valid() && top in t.parent
    requires forall i | 0 <= i < |targets| :: OnLine(t, top, targets[i], below)
    requires forall i, j | 0 <= i < j < |targets| :: Lower(t, targets[i], targets[j])
    ensures Climbs(t, top, targets, below)
  {
  }

  /** The blocks that a validly committed path was built on climb one mainchain line. */
  lemma PathClimbs(c: Chains, top: BlockHash, m: MainHash, base: Option<BlockHash>, path: seq<Header>)
    requires c.Sound() && top in c.side.headers && c.Verifies(top, m) && PathAbove(c, top, base, path)
             && OldestBuilt(path)
    ensures c.side.headers[top].prevMain in c.main.headers
    ensures Climbs(c.main.Tree(), c.side.headers[top].prevMain, Targets(path), BuiltAt(c, base))
    ensures path[0] == c.side.headers[top]
  {
    var t := c.main.Tree();
    assert OnPath(c, top, path, 0);
    PathBuilt(c, top, m, base, path, 0);
    var q := c.side.headers[top].prevMain;
    forall i | 0 <= i < |path|
      ensures OnLine(t, q, path[i].prevMain, BuiltAt(c, base))
    {
      PathBuilt(c, top, m, base, path, i);
    }
    forall i, j | 0 <= i < j < |path|
      ensures Lower(t, path[j].prevMain, path[i].prevMain)
    {
      PathPair(c, top, m, path, i, j);
      PathBuilt(c, top, m, base, path, j);
    }
    DescendingPathClimbs(t, q, path, BuiltAt(c, base));
  }

  lemma PathBuilt(c: Chains, top: BlockHash, m: MainHash, base: Option<BlockHash>, path: seq<Header>, i: nat)
    requires c.Sound() && top in c.side.headers && c.Verifies(top, m) && PathAbove(c, top, base, path)
             && OldestBuilt(path)
    requires i < |path|
    ensures path[i].prevMain in c.main.headers && c.side.headers[top].prevMain in c.main.headers
    ensures c.main.Tree().IsAncestor(path[i].prevMain, c.side.headers[top].prevMain)
    ensures BuiltAt(c, base) < c.main.heights[path[i].prevMain]
  {
    var n := |path|;
    assert OnPath(c, top, path, 0) && OnPath(c, top, path, i) && path[0].hash == top;
    if i + 1 < n {
      PathPair(c, top, m, path, i, n - 1);
    } else if i > 0 {
      PathPair(c, top, m, path, 0, i);
    } else {
      TopBuilt(c, top, m);
    }
    if base.Some? {
      PathToBase(c, top, m, base.value, path, i);
    }
    if i > 0 {
      PathPair(c, top, m, path, 0, i);
    } else {
      c.main.Tree().AncestorSelf(path[0].prevMain);
    }
  }

  /** A validly committed block that was built on some mainchain block was built on a stored one. */
  lemma TopBuilt(c: Chains, top: BlockHash, m: MainHash)
    requires c.Sound() && top in c.side.headers && c.Verifies(top, m) && c.side.headers[top].prevMain != ZERO_HASH
    ensures c.side.headers[top].prevMain in c.main.headers
  {
    assert c.main.Tree().Linked(m);
  }
}
