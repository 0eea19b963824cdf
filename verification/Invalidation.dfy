/** Removing a block and everything built on it from the sidechain tables. */
module Invalidation {
  import opened Wrappers
  import opened ChainTypes
  import opened HeaderTree
  import opened ArchiveDb
  import opened ArchiveSteps
  import opened ArchiveBodies

  /** The block itself and all stored blocks that descend from it. */
  ghost function Subtree(t: Tree<BlockHash>, block: BlockHash): set<BlockHash>
    requires t.Valid()
  {
    {block} + set d | d in t.parent && t.IsAncestor(block, d)
  }

  /** The header tables without the blocks in `gone`. */
  function Prune(side: SideTables, gone: set<BlockHash>): SideTables {
    SideTables(side.headers - gone, side.heights - gone, side.exponential - gone,
               map k | k in side.successors && !(k.Some? && k.value in gone) :: side.successors[k] - gone)
  }

  /** A set that holds `block` and is closed under children holds the whole subtree. */
  lemma {:induction false} ClosedHoldsSubtree(t: Tree<BlockHash>, gone: set<BlockHash>, block: BlockHash, d: BlockHash)
    requires t.Valid() && block in gone && d in t.parent && t.IsAncestor(block, d)
    requires forall c | c in t.parent && t.parent[c].Some? && t.parent[c].value in gone :: c in gone
    ensures d in gone
    decreases t.height[d]
  {
    assert t.Linked(d);
    if d != block {
      t.AncestorDepth(block, d);
      assert t.Up(d, t.height[d] - t.height[block]) == t.Up(t.parent[d].value, t.height[d] - t.height[block] - 1);
      ClosedHoldsSubtree(t, gone, block, t.parent[d].value);
    }
  }

  /** A set whose members other than `block` have their parent in it lies inside the subtree. */
  lemma {:induction false} RootedInSubtree(t: Tree<BlockHash>, gone: set<BlockHash>, block: BlockHash, d: BlockHash)
    requires t.Valid() && d in gone
    requires forall c | c in gone && c != block :: c in t.parent && t.parent[c].Some? && t.parent[c].value in gone
    ensures d in Subtree(t, block)
    decreases if d in t.height then t.height[d] else 0
  {
    if d != block {
      assert t.Linked(d);
      var p := t.parent[d].value;
      RootedInSubtree(t, gone, block, p);
      t.AncestorParent(d);
      t.AncestorSelf(p);
      t.AncestorTransitive(block, p, d);
    }
  }

  /** Everything the walk keeps true: what has been removed and what is still on the stack. */
  ghost predicate Frontier(t: Tree<BlockHash>, block: BlockHash, gone: set<BlockHash>, stack: seq<BlockHash>)
    requires t.Valid()
  {
    && (gone == {} ==> stack == [block])
    && (gone != {} ==> block in gone)
    && (forall i | 0 <= i < |stack| :: stack[i] !in gone)
    && (forall i, j | 0 <= i < j < |stack| :: stack[i] != stack[j])
    && (forall c | c in stack && c != block :: c in t.parent && t.parent[c].Some? && t.parent[c].value in gone)
    && (forall c | c in gone && c != block :: c in t.parent && t.parent[c].Some? && t.parent[c].value in gone)
    && (forall c | c in t.parent && t.parent[c].Some? && t.parent[c].value in gone :: c in gone || c in stack)
  }

  lemma FrontierStep(t: Tree<BlockHash>, block: BlockHash, gone: set<BlockHash>, stack: seq<BlockHash>,
                     pushed: seq<BlockHash>)
    requires t.Valid() && stack != [] && Frontier(t, block, gone, stack)
    requires forall c :: c in pushed <==> c in ChildrenOf(t.parent, Some(stack[|stack| - 1])) - gone
    requires forall i, j | 0 <= i < j < |pushed| :: pushed[i] != pushed[j]
    ensures Frontier(t, block, gone + {stack[|stack| - 1]}, stack[..|stack| - 1] + pushed)
  {
    var b := stack[|stack| - 1];
    var rest := stack[..|stack| - 1];
    assert forall c :: c in rest + pushed <==> c in rest || c in pushed;
    assert forall c :: c in stack <==> c in rest || c == b;
    var more := gone + {b};
    assert b in stack;
    forall c | c in pushed
      ensures c != b && c !in rest && c !in more
    {
      assert t.Linked(c);
    }
    forall i, j | 0 <= i < j < |rest + pushed|
      ensures (rest + pushed)[i] != (rest + pushed)[j]
    {
      if i < |rest| <= j {
        assert (rest + pushed)[i] in rest && (rest + pushed)[j] in pushed;
      }
    }
    forall c | c in t.parent && t.parent[c].Some? && t.parent[c].value in more
      ensures c in more || c in rest + pushed
    {
      if t.parent[c].value in gone {
        assert c in gone || c in stack;
      }
    }
  }

  /** When the stack is empty, exactly the subtree has been removed. */
  lemma FrontierDone(t: Tree<BlockHash>, block: BlockHash, gone: set<BlockHash>)
    requires t.Valid() && Frontier(t, block, gone, [])
    ensures gone == Subtree(t, block)
  {
    forall d | d in gone
      ensures d in Subtree(t, block)
    {
      RootedInSubtree(t, gone, block, d);
    }
    forall d | d in t.parent && t.IsAncestor(block, d)
      ensures d in gone
    {
      ClosedHoldsSubtree(t, gone, block, d);
    }
  }

  /** Only the row of its parent lists `b`, so that row and its own are all that change. */
  lemma PruneRowsStep(side: SideTables, gone: set<BlockHash>, b: BlockHash, k: Option<BlockHash>)
    requires SideRows(side.Tree().parent, side.successors)
    ensures var p := Prune(side, gone).successors; var q := Prune(side, gone + {b}).successors;
            && (k in q <==> k in p && k != Some(b))
            && (k in q && b in side.headers && k == side.headers[b].prevSide ==> q[k] == p[k] - {b})
            && (k in q && !(b in side.headers && k == side.headers[b].prevSide) ==> q[k] == p[k])
  {
    var p := Prune(side, gone).successors;
    if k in p {
      assert SideRow(side.Tree().parent, side.successors, k);
    }
  }

  /** The successor rows after taking `b` out, as the archive updates them. */
  function DropSuccessor(side: SideTables, b: BlockHash): map<Option<BlockHash>, set<BlockHash>> {
    (if b in side.headers && side.headers[b].prevSide in side.successors
     then side.successors[side.headers[b].prevSide := side.successors[side.headers[b].prevSide] - {b}]
     else side.successors) - {Some(b)}
  }

  /** Taking one more block out of already pruned tables. */
  lemma PruneStep(side: SideTables, gone: set<BlockHash>, b: BlockHash)
    requires SideRows(side.Tree().parent, side.successors) && b !in gone
    ensures var p := Prune(side, gone);
            Prune(side, gone + {b}) ==
            SideTables(p.headers - {b}, p.heights - {b}, p.exponential - {b}, DropSuccessor(p, b))
  {
    var p := Prune(side, gone);
    var q := Prune(side, gone + {b});
    assert q.headers == p.headers - {b} && q.heights == p.heights - {b} && q.exponential == p.exponential - {b};
    var rows := DropSuccessor(p, b);
    forall k
      ensures k in rows <==> k in q.successors
      ensures k in rows ==> rows[k] == q.successors[k]
    {
      PruneRowsStep(side, gone, b, k);
    }
    assert rows == q.successors;
  }

  /** The tables without a whole subtree are valid again: ancestors of what remains, remain. */
  lemma PrunedTree(side: SideTables, block: BlockHash)
    requires side.Tree().Valid()
    ensures Prune(side, Subtree(side.Tree(), block)).Tree().Valid()
    ensures var p := Prune(side, Subtree(side.Tree(), block));
            forall b, n: nat | b in p.headers :: p.Tree().Up(b, n) == side.Tree().Up(b, n)
  {
    var t := side.Tree();
    var gone := Subtree(t, block);
    var p := Prune(side, gone);
    forall b | b in p.Tree().parent
      ensures p.Tree().Linked(b)
    {
      assert t.Linked(b);
      if t.parent[b].Some? && t.parent[b].value in gone {
        t.AncestorParent(b);
        t.AncestorSelf(block);
        t.AncestorTransitive(block, t.parent[b].value, b);
      }
    }
    assert p.Tree().Valid();
    forall b, n: nat | b in p.headers
      ensures p.Tree().Up(b, n) == t.Up(b, n)
    {
      p.Tree().PutKeepsUp(t, b, n);
    }
  }

  lemma PrunedValid(side: SideTables, block: BlockHash)
    requires side.Valid()
    ensures Prune(side, Subtree(side.Tree(), block)).Valid()
  {
    PrunedTree(side, block);
    var gone := Subtree(side.Tree(), block);
    var p := Prune(side, gone);
    forall b | b in p.exponential
      ensures p.Index().Exact(b)
    {
      assert side.Index().Exact(b);
    }
    PrunedRows(side, gone);
  }

  lemma PrunedRows(side: SideTables, gone: set<BlockHash>)
    requires SideRows(side.Tree().parent, side.successors)
    ensures SideRows(Prune(side, gone).Tree().parent, Prune(side, gone).successors)
  {
    var p := Prune(side, gone);
    var parent := side.Tree().parent;
    forall k
      ensures k in p.successors <==> k == None || (k.Some? && k.value in p.headers)
    {
      assert k in side.successors <==> k in {None} + (set b | b in parent :: Some(b));
    }
    forall k | k in p.successors
      ensures SideRow(p.Tree().parent, p.successors, k)
    {
      assert SideRow(parent, side.successors, k);
    }
  }

  /** The archive after invalidating `block`; verdicts stay as they were. */
  ghost predicate Invalidated(db: Db, block: BlockHash, e: Db)
    requires db.Valid()
  {
    var gone := Subtree(db.chains.side.Tree(), block);
    && e == db.(chains := db.chains.(side := Prune(db.chains.side, gone)),
                bodies := db.bodies - gone,
                inclusions := e.inclusions,
                invalid := db.invalid + gone)
    && InclusionsExact(e.bodies, e.inclusions)
  }

  lemma PrunedChains(c: Chains, block: BlockHash)
    requires c.Valid()
    ensures var d := c.(side := Prune(c.side, Subtree(c.side.Tree(), block)));
            d.Valid() && Extends(d, c)
  {
    PrunedValid(c.side, block);
    var d := c.(side := Prune(c.side, Subtree(c.side.Tree(), block)));
    forall b | b in d.side.headers
      ensures d.Anchored(b)
    {
      assert c.Anchored(b);
    }
  }

  lemma PrunedVerdicts(c: Chains, d: Chains, bmm: map<BlockHash, map<MainHash, BmmResult>>)
    requires c.Sound() && d.Sound() && Extends(d, c) && d.infos == c.infos && BmmExact(c, bmm)
    ensures BmmExact(d, bmm)
  {
    forall b | b in bmm
      ensures RowKnown(d, bmm, b)
    {
      assert RowKnown(c, bmm, b);
    }
    forall b, m | b in d.side.headers
      ensures VerdictAgrees(d, bmm, b, m)
    {
      assert VerdictAgrees(c, bmm, b, m);
      if m in d.infos {
        VerifiesStable(d, c, b, m);
      }
    }
  }

  // ---- one block at a time ----

  /** Blocks known to follow `b`. */
  function Successors(side: SideTables, b: BlockHash): set<BlockHash> {
    if Some(b) in side.successors then side.successors[Some(b)] else {}
  }

  ghost predicate BlockRemoved(db: Db, b: BlockHash, e: Db) {
    var side := db.chains.side;
    && e == db.(chains := db.chains.(side := SideTables(side.headers - {b}, side.heights - {b}, side.exponential - {b},
                                                        DropSuccessor(side, b))),
                bodies := db.bodies - {b}, inclusions := e.inclusions, invalid := db.invalid + {b})
    && InclusionsExact(e.bodies, e.inclusions)
  }

  ghost predicate PartlyInvalidated(db: Db, gone: set<BlockHash>, e: Db) {
    && e == db.(chains := db.chains.(side := Prune(db.chains.side, gone)),
                bodies := db.bodies - gone, inclusions := e.inclusions, invalid := db.invalid + gone)
    && InclusionsExact(e.bodies, e.inclusions)
  }

  lemma PruneNothing(db: Db)
    requires db.Valid()
    ensures PartlyInvalidated(db, {}, db)
  {
    PruneEmpty(db.chains.side);
    assert db.bodies - {} == db.bodies;
  }

  lemma PruneEmpty(s: SideTables)
    requires s.Valid()
    ensures Prune(s, {}) == s
  {
    var p := Prune(s, {});
    assert p.headers == s.headers && p.heights == s.heights && p.exponential == s.exponential;
    assert forall k | k in s.successors :: s.successors[k] - {} == s.successors[k];
    assert p.successors == s.successors;
  }

  lemma PartlyInvalidatedStep(db: Db, gone: set<BlockHash>, was: Db, b: BlockHash, e: Db)
    requires SideRows(db.chains.side.Tree().parent, db.chains.side.successors) && b !in gone
    requires PartlyInvalidated(db, gone, was) && BlockRemoved(was, b, e)
    ensures PartlyInvalidated(db, gone + {b}, e)
  {
    PruneStep(db.chains.side, gone, b);
    assert db.bodies - gone - {b} == db.bodies - (gone + {b});
    assert db.invalid + gone + {b} == db.invalid + (gone + {b});
  }

  lemma RemainingChildren(db: Db, gone: set<BlockHash>, b: BlockHash)
    requires db.chains.side.Tree().Valid() && SideRows(db.chains.side.Tree().parent, db.chains.side.successors)
    requires b !in gone
    ensures Successors(Prune(db.chains.side, gone), b) == ChildrenOf(db.chains.side.Tree().parent, Some(b)) - gone
  {
    var side := db.chains.side;
    if b in side.headers {
      assert Some(b) in set c | c in side.Tree().parent :: Some(c);
      assert SideRow(side.Tree().parent, side.successors, Some(b));
    } else {
      NoChildrenYet(side.Tree(), b);
    }
  }

  // ---- bodies ----

  ghost predicate BodyStored(db: Db, block: BlockHash, body: seq<Txid>, e: Db) {
    && e == db.(bodies := db.bodies[block := body], inclusions := e.inclusions)
    && InclusionsExact(e.bodies, e.inclusions)
  }

  ghost predicate BodyDeleted(db: Db, block: BlockHash, e: Db) {
    && e == db.(bodies := db.bodies - {block}, inclusions := e.inclusions)
    && InclusionsExact(e.bodies, e.inclusions)
  }

  /** Deleting a body that was just stored for the first time restores the archive exactly. */
  lemma DeleteUndoesPut(db: Db, block: BlockHash, body: seq<Txid>, d: Db, e: Db)
    requires db.Valid() && block !in db.bodies
    requires BodyStored(db, block, body, d) && BodyDeleted(d, block, e)
    ensures e == db
  {
    assert e.bodies == db.bodies;
    InclusionsDetermined(db.bodies, db.inclusions, e.inclusions);
  }

  /** Invalidation keeps the archive valid. */
  lemma InvalidatedValid(db: Db, block: BlockHash, e: Db)
    requires db.Valid() && Invalidated(db, block, e)
    ensures e.Valid()
  {
    PrunedChains(db.chains, block);
    PrunedVerdicts(db.chains, e.chains, db.bmm);
  }

  /** What is left is ancestor-closed, and everything marked invalid by this call is gone. */
  lemma InvalidatedAncestorClosed(db: Db, block: BlockHash, e: Db, a: BlockHash, b: BlockHash)
    requires db.Valid() && Invalidated(db, block, e)
    requires b in e.chains.side.headers && db.chains.side.Tree().IsAncestor(a, b)
    ensures a in e.chains.side.headers && a !in e.invalid
  {
    InvalidatedValid(db, block, e);
    var t := db.chains.side.Tree();
    if a in Subtree(t, block) {
      t.AncestorSelf(a);
      t.AncestorTransitive(block, a, b);
    }
  }

  /** The elements of a set in some order. */
  method ToSeq(s: set<BlockHash>) returns (q: seq<BlockHash>)
    ensures forall c :: c in q <==> c in s
    ensures forall i, j | 0 <= i < j < |q| :: q[i] != q[j]
  {
    q := [];
    var todo := s;
    while todo != {}
      invariant todo <= s
      invariant forall c :: c in q <==> c in s && c !in todo
      invariant forall i, j | 0 <= i < j < |q| :: q[i] != q[j]
    {
      var c :| c in todo;
      q := q + [c];
      todo := todo - {c};
    }
  }
}
