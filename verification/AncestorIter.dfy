/**
 Iterators over the ancestors of a block. The oldest-to-newest walk fetches
 batches of 32: it jumps to the newest block of the next batch and reads parents
 from there into a buffer.
 */
module AncestorIter {
  import opened Wrappers
  import opened Arith
  import opened HeaderTree

  const MAX_BATCH_SIZE: nat := 32

  /** The ancestors of `b` at heights `from`, `from + 1`, ..., up to `b` itself. */
  ghost function Rising<H(!new)>(t: Tree<H>, b: H, from: nat): (s: seq<H>)
    requires t.Valid() && b in t.parent
    ensures |s| == if from <= t.height[b] then t.height[b] + 1 - from else 0
    ensures forall i | 0 <= i < |s| :: s[i] in t.parent && t.height[s[i]] == from + i && t.IsAncestor(s[i], b)
  {
    if from > t.height[b] then []
    else
      seq(t.height[b] + 1 - from, i requires 0 <= i < t.height[b] + 1 - from =>
        (assert t.Up(b, t.height[b] - from - i).Some?; t.Up(b, t.height[b] - from - i).value))
  }

  /** Nothing is skipped: the block at each height is the one ancestor there. */
  lemma RisingComplete<H(!new)>(t: Tree<H>, b: H, from: nat, a: H)
    requires t.Valid() && b in t.parent && a in t.parent && t.IsAncestor(a, b) && from <= t.height[a]
    ensures t.height[a] <= t.height[b] && Rising(t, b, from)[t.height[a] - from] == a
  {
    t.AncestorDepth(a, b);
  }

  class AncestorsRev<H(==, !new)> {
    const index: Index<H>
    const block: H
    /** Inclusive; `None` once the last batch has been fetched. */
    var batchStart: Option<nat>
    /** Set on the first call. */
    var endHeight: Option<nat>
    var buffer: seq<H>

    /** Everything the iterator has yet to yield. */
    ghost function Pending(): seq<H>
      requires index.Valid() && block in index.tree.parent
      reads this
    {
      Reversed(buffer) + (match batchStart case None => [] case Some(h) => Rising(index.tree, block, h))
    }

    ghost predicate Valid()
      reads this
    {
      && index.Valid() && block in index.tree.parent
      && (forall b | b in index.tree.height :: index.tree.height[b] < U32_LIMIT)
      && (endHeight.Some? ==> endHeight.value == index.tree.height[block])
      && (endHeight.None? ==> buffer == [])
    }

    constructor (ix: Index<H>, b: H, startHeight: nat)
      requires ix.Valid() && b in ix.tree.parent && forall c | c in ix.tree.height :: ix.tree.height[c] < U32_LIMIT
      ensures Valid() && index == ix && block == b && Pending() == Rising(ix.tree, b, startHeight)
    {
      index, block, batchStart, endHeight, buffer := ix, b, Some(startHeight), None, [];
    }

    /** Yield the oldest pending ancestor, or `None` from the moment nothing is pending. */
    method Next() returns (r: Option<H>)
      requires Valid()
      modifies this
      ensures Valid()
      ensures old(Pending()) == [] ==> r == None && Pending() == []
      ensures old(Pending()) != [] ==> r == Some(old(Pending())[0]) && Pending() == old(Pending())[1..]
    {
      if endHeight.None? {
        endHeight := Some(index.tree.height[block]);
      }
      if buffer != [] {
        r := PopBuffer();
      } else if batchStart.Some? && batchStart.value <= endHeight.value {
        FetchBatch();
        r := PopBuffer();
      } else {
        r := None;
      }
    }

    method PopBuffer() returns (r: Option<H>)
      requires Valid() && buffer != []
      modifies `buffer
      ensures Valid() && r == Some(old(Pending())[0]) && Pending() == old(Pending())[1..]
    {
      r := Some(buffer[|buffer| - 1]);
      ReversedPop(buffer);
      buffer := buffer[..|buffer| - 1];
    }

    /** Fetch the next batch; what is pending stays the same. */
    method FetchBatch()
      requires Valid() && buffer == [] && endHeight.Some? && batchStart.Some? && batchStart.value <= endHeight.value
      modifies `buffer, `batchStart
      ensures Valid() && buffer != [] && Pending() == old(Pending())
    {
      var start := batchStart.value;
      var heightDiff := endHeight.value - start;
      var offset := if heightDiff < MAX_BATCH_SIZE - 1 then heightDiff else MAX_BATCH_SIZE - 1;
      var size := offset + 1;
      var newest, _ := GetNthAncestor(index, block, heightDiff - offset);
      ghost var depth: nat := heightDiff - offset;
      assert index.tree.Up(block, depth) == Some(newest.value);
      RisingSplit(index.tree, block, start, size);
      FillBuffer(newest.value, size, start);
      batchStart := if start + size < U32_LIMIT && start + size <= endHeight.value then Some(start + size) else None;
    }

    /** Read `size` blocks from `newest` down through parents. */
    method FillBuffer(newest: H, size: nat, ghost start: nat)
      requires Valid() && buffer == [] && endHeight.Some? && newest in index.tree.parent
      requires size > 0 && start + size == index.tree.height[newest] + 1 && index.tree.IsAncestor(newest, block)
      modifies `buffer
      ensures Valid() && Reversed(buffer) == Rising(index.tree, block, start)[..size]
    {
      var cur := Some(newest);
      var n := 0;
      ghost var t := index.tree;
      while n < size && cur.Some?
        invariant Valid() && |buffer| == n <= size
        invariant forall i | 0 <= i < n :: t.Up(newest, i) == Some(buffer[i])
        invariant cur == t.Up(newest, n)
        decreases size - n
      {
        assert t.Linked(cur.value);
        buffer := buffer + [cur.value];
        t.UpPlus(newest, n, 1);
        assert t.Up(cur.value, 1) == match t.parent[cur.value] case None => None case Some(p) => t.Up(p, 0);
        cur := index.tree.parent[cur.value];
        n := n + 1;
      }
      t.AncestorDepth(newest, block);
      ReversedIndex(buffer);
      forall i | 0 <= i < size
        ensures Reversed(buffer)[i] == Rising(t, block, start)[i]
      {
        t.UpPlus(block, t.height[block] - t.height[newest], size - 1 - i);
      }
    }
  }

  ghost function Reversed<H>(s: seq<H>): (r: seq<H>)
    ensures |r| == |s|
  {
    if s == [] then [] else [s[|s| - 1]] + Reversed(s[..|s| - 1])
  }

  lemma {:induction false} ReversedIndex<H>(s: seq<H>)
    ensures forall i | 0 <= i < |s| :: Reversed(s)[i] == s[|s| - 1 - i]
  {
    if s != [] {
      ReversedIndex(s[..|s| - 1]);
    }
  }

  lemma ReversedPop<H>(s: seq<H>)
    requires s != []
    ensures Reversed(s)[0] == s[|s| - 1] && Reversed(s)[1..] == Reversed(s[..|s| - 1])
  {
  }

  lemma RisingSplit<H(!new)>(t: Tree<H>, b: H, start: nat, size: nat)
    requires t.Valid() && b in t.parent && start + size <= t.height[b] + 1
    ensures Rising(t, b, start) == Rising(t, b, start)[..size] + Rising(t, b, start + size)
  {
  }
}
