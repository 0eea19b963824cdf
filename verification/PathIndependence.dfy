/**
 Where a run of reorganisations ends depends on the tip alone: the state is the
 one that connecting the tip's chain from genesis leads to, whatever other tips
 were followed on the way and wherever an attempt was abandoned.
 */
module PathIndependence {
  import opened Wrappers
  import opened Arith
  import opened ChainTypes
  import opened HeaderTree
  import opened ArchiveDb
  import opened AncestorIter
  import opened Segments
  import opened Transactions
  import opened StateDb
  import opened Reorg
  import opened ReorgRun
  import Db = StateDb
  import StateRoundTrip
  import Batching = StateBatch
  import Coins

  /** The archive, what each block contains, and how blocks move the state. */
  datatype World = World(k: Steps, c: Chains, contents: map<BlockHash, Body>) {

    ghost predicate Valid() {
      && Usable(c) && k.Fit() && forall b | b in c.side.headers :: c.side.headers[b].prevMain != ZERO_HASH
    }

    function BlockOf(b: BlockHash): Block
      requires b in c.side.headers && b in contents
    {
      Block(c.side.headers[b], contents[b])
    }

    /** The mainchain blocks that belong to `b`: from just above those of its parent up to the one it was built on. */
    ghost function Segment(b: BlockHash): seq<MainHash>
      requires Usable(c) && b in c.side.headers
    {
      assert c.side.Tree().Linked(b);
      var h := c.side.headers[b];
      if h.prevMain in c.main.headers then Rising(c.main.Tree(), h.prevMain, BuiltAt(c, h.prevSide) + 1) else []
    }

    /** The state after connecting the chain of `b` from genesis, if it connects. */
    ghost function At(b: BlockHash): Option<StateDb>
      requires Usable(c) && b in c.side.headers
      decreases c.side.heights[b] + 1, 0
    {
      assert c.side.Tree().Linked(b);
      var before := AtTip(c.side.headers[b].prevSide);
      if before.None? || b !in contents then None
      else
        var r := k.Forward(before.value, BlockOf(b), Segment(b));
        if r.Ok? then Some(r.value) else None
    }

    ghost function AtTip(tip: Option<BlockHash>): Option<StateDb>
      requires Usable(c) && (tip.Some? ==> tip.value in c.side.headers)
      decreases if tip.Some? then c.side.heights[tip.value] + 1 else 0, 1
    {
      match tip case None => Some(EMPTY_STATE) case Some(b) => At(b)
    }

    /** Disconnecting a block from its own chain's state leads to its parent's. */
    ghost predicate Undoes()
      requires Usable(c)
    {
      forall b {:trigger UndoneAt(b)} | b in c.side.headers :: UndoneAt(b)
    }

    ghost predicate UndoneAt(b: BlockHash)
      requires Usable(c) && b in c.side.headers
    {
      assert c.side.Tree().Linked(b);
      At(b).Some? ==> Ok(AtTip(c.side.headers[b].prevSide).value) == k.Backward(At(b).value, BlockOf(b))
    }

    /** `s` is the state of its tip's chain. */
    ghost predicate Canonical(s: StateDb)
      requires Usable(c)
    {
      (s.tip.Some? ==> s.tip.value in c.side.headers) && AtTip(s.tip) == Some(s)
    }

    /** Stored bodies are what the blocks contain. */
    ghost predicate Stores(bodies: map<BlockHash, Body>) {
      forall b | b in bodies :: b in contents && contents[b] == bodies[b]
    }

    lemma TipOfState(tip: Option<BlockHash>)
      requires Valid() && (tip.Some? ==> tip.value in c.side.headers)
      ensures AtTip(tip).Some? ==> AtTip(tip).value.tip == tip
    {
      if tip.Some? && At(tip.value).Some? {
        assert c.side.Tree().Linked(tip.value);
        ForwardTip(k, AtTip(c.side.headers[tip.value].prevSide).value, BlockOf(tip.value), Segment(tip.value));
      }
    }

    // ---- backwards ----

    lemma OneBackCanonical(bodies: map<BlockHash, Body>, s: StateDb)
      requires Valid() && Undoes() && Stores(bodies) && Canonical(s) && OneBack(k, c, bodies, s).Some?
      ensures Canonical(OneBack(k, c, bodies, s).value)
    {
      var b := s.tip.value;
      assert c.side.Tree().Linked(b) && UndoneAt(b);
      TipOfState(c.side.headers[b].prevSide);
    }

    lemma {:induction false} BackCanonical(bodies: map<BlockHash, Body>, s: StateDb, n: nat)
      requires Valid() && Undoes() && Stores(bodies) && Canonical(s) && GoBack(k, c, bodies, s, n).Some?
      ensures Canonical(GoBack(k, c, bodies, s, n).value)
    {
      if n > 0 {
        BackCanonical(bodies, s, n - 1);
        OneBackCanonical(bodies, GoBack(k, c, bodies, s, n - 1).value);
      }
    }

    // ---- forwards ----

    /** A path to apply, with the mainchain blocks for it, from its meeting point `base` up to `top`. */
    ghost predicate Ahead(top: BlockHash, base: Option<BlockHash>, blocks: seq<Block>, line: seq<MainHash>)
      requires Usable(c)
    {
      && top in c.side.headers && (base.Some? ==> base.value in c.side.headers) && |blocks| > 0
      && PathAbove(c, top, base, Headers(blocks))
      && Consecutive(c.main.Tree(), Targets(Headers(blocks)), HandOut(line, Targets(Headers(blocks))), BuiltAt(c, base))
    }

    /** The tip below the `n`-th oldest block of the path. */
    ghost function Below(base: Option<BlockHash>, blocks: seq<Block>, n: nat): Option<BlockHash>
      requires n <= |blocks|
    {
      if n == 0 then base else Some(blocks[|blocks| - n].header.hash)
    }

    lemma ParentOnPath(top: BlockHash, base: Option<BlockHash>, blocks: seq<Block>, line: seq<MainHash>, n: nat)
      requires Usable(c) && Ahead(top, base, blocks, line) && n < |blocks|
      ensures var b := blocks[|blocks| - n - 1].header.hash;
              b in c.side.headers && c.side.headers[b] == blocks[|blocks| - n - 1].header
                && c.side.headers[b].prevSide == Below(base, blocks, n)
    {
      var t := c.side.Tree();
      var i := |blocks| - n - 1;
      var path := Headers(blocks);
      assert OnPath(c, top, path, i) && t.Linked(path[i].hash);
      t.UpPlus(top, i, 1);
      assert t.Up(path[i].hash, 1) == match t.parent[path[i].hash] case None => None case Some(p) => t.Up(p, 0);
      if n > 0 {
        assert OnPath(c, top, path, i + 1);
      }
    }

    /** The segment of a block begins above the mainchain block that the block below it was built on. */
    lemma BuiltOn(top: BlockHash, base: Option<BlockHash>, blocks: seq<Block>, line: seq<MainHash>, n: nat)
      requires Usable(c) && Ahead(top, base, blocks, line) && 0 < n < |blocks|
               && Targets(Headers(blocks))[n - 1] in c.main.heights
      ensures var p := blocks[|blocks| - n].header.hash;
              p in c.side.headers && BuiltAt(c, Some(p)) == c.main.heights[Targets(Headers(blocks))[n - 1]]
    {
      ParentOnPath(top, base, blocks, line, n - 1);
    }

    /** Each block of the path is handed the segment that belongs to it. */
    lemma OwnSegment(top: BlockHash, base: Option<BlockHash>, blocks: seq<Block>, line: seq<MainHash>, n: nat)
      requires Usable(c) && Ahead(top, base, blocks, line) && n < |blocks|
      ensures blocks[|blocks| - n - 1].header.hash in c.side.headers
      ensures SegmentAt(line, Targets(Headers(blocks)), n) == Segment(blocks[|blocks| - n - 1].header.hash)
    {
      var targets := Targets(Headers(blocks));
      ParentOnPath(top, base, blocks, line, n);
      HandOutAt(line, targets, n);
      ConsecutiveAt(c.main.Tree(), targets, HandOut(line, targets), BuiltAt(c, base), n);
      if n > 0 {
        BuiltOn(top, base, blocks, line, n);
      }
    }

    /** `t` is the chain state after the `n` oldest blocks of the path. */
    ghost predicate Reached(base: Option<BlockHash>, blocks: seq<Block>, n: nat, t: StateDb)
      requires Usable(c) && n <= |blocks|
    {
      Canonical(t) && t.tip == Below(base, blocks, n)
    }

    lemma ReachesNext(top: BlockHash, base: Option<BlockHash>, blocks: seq<Block>, line: seq<MainHash>,
                      bodies: map<BlockHash, Body>, t: StateDb, e: StateDb, n: nat)
      requires Valid() && Ahead(top, base, blocks, line) && AllRead(bodies, blocks) && Stores(bodies)
      requires n < |blocks| && Reached(base, blocks, n, t)
      requires k.Forward(t, blocks[|blocks| - n - 1], SegmentAt(line, Targets(Headers(blocks)), n)) == Ok(e)
      ensures Reached(base, blocks, n + 1, e)
    {
      ParentOnPath(top, base, blocks, line, n);
      OwnSegment(top, base, blocks, line, n);
      TipOfState(Below(base, blocks, n + 1));
    }

    /** A run of the path's blocks on the state of its meeting point. */
    ghost predicate Runs(top: BlockHash, base: Option<BlockHash>, blocks: seq<Block>, line: seq<MainHash>,
                         bodies: map<BlockHash, Body>, run: BlockRun)
    {
      && Valid() && Ahead(top, base, blocks, line) && AllRead(bodies, blocks) && Stores(bodies)
      && run.connect == Connecting(k, blocks, line) && Reached(base, blocks, 0, run.start)
    }

    ghost predicate ReachedBy(base: Option<BlockHash>, blocks: seq<Block>, run: BlockRun, n: nat)
      requires Usable(c)
    {
      n <= |blocks| && run.Reached(n).Some? ==> Reached(base, blocks, n, run.Reached(n).value)
    }

    lemma ConnectIs(blocks: seq<Block>, line: seq<MainHash>, t: StateDb, n: nat)
      requires n < |blocks|
      ensures Connecting(k, blocks, line)(n, t)
              == k.Forward(t, blocks[|blocks| - n - 1], SegmentAt(line, Targets(Headers(blocks)), n))
    {
    }

    lemma StepReaches(top: BlockHash, base: Option<BlockHash>, blocks: seq<Block>, line: seq<MainHash>,
                      bodies: map<BlockHash, Body>, run: BlockRun, t: StateDb, e: StateDb, n: nat)
      requires Runs(top, base, blocks, line, bodies, run) && n < |blocks| && Reached(base, blocks, n, t)
      requires run.connect(n, t) == Ok(e)
      ensures Reached(base, blocks, n + 1, e)
    {
      ConnectIs(blocks, line, t, n);
      ReachesNext(top, base, blocks, line, bodies, t, e, n);
    }

    lemma ReachedByNext(top: BlockHash, base: Option<BlockHash>, blocks: seq<Block>, line: seq<MainHash>,
                        bodies: map<BlockHash, Body>, run: BlockRun, n: nat)
      requires Runs(top, base, blocks, line, bodies, run) && ReachedBy(base, blocks, run, n)
      ensures ReachedBy(base, blocks, run, n + 1)
    {
      if n < |blocks| && run.Reached(n + 1).Some? {
        var e := run.Reached(n + 1).value;
        var t := run.LastStep(n + 1, e);
        StepReaches(top, base, blocks, line, bodies, run, t, e, n);
      }
    }

    lemma ForwardCanonical(top: BlockHash, base: Option<BlockHash>, blocks: seq<Block>, line: seq<MainHash>,
                           bodies: map<BlockHash, Body>, run: BlockRun, e: StateDb, n: nat)
      requires Runs(top, base, blocks, line, bodies, run) && n <= |blocks| && run.Reached(n) == Some(e)
      ensures Reached(base, blocks, n, e)
    {
      var p := (i: nat) => ReachedBy(base, blocks, run, i);
      forall i: nat {:trigger Counts(p, i)}
        ensures Counts(p, i)
      {
        if p(i) {
          ReachedByNext(top, base, blocks, line, bodies, run, i);
        }
      }
      CountUp(p, n);
    }

    // ---- a reorganisation ----

    /** What one call of the reorganisation leaves is the state of its tip's chain. */
    lemma ReorgCanonical(best: map<BlockHash, MainHash>, bodies: map<BlockHash, Body>, left: map<BlockHash, Body>,
                         before: StateDb, after: StateDb, newTip: Tip, r: Result<bool, Reorg.Error>, trace: Trace)
      requires Valid() && Undoes() && Stores(bodies) && Canonical(before) && TipKnown(c, before)
      requires TraceFits(k, c, bodies, before, newTip, trace)
      requires Ends(TracedRun(k, c, best, before, trace), newTip, r, after, bodies, left)
      requires trace.plan.base != Some(newTip.block) && exists m :: c.Verifies(newTip.block, m)
      requires SegmentsHandedOut(c, newTip.block, trace.plan.base, trace.plan.blocks, trace.line)
      ensures Canonical(after)
    {
      var base, blocks, line := trace.plan.base, trace.plan.blocks, trace.line;
      LandingCanonical(bodies, before, base);
      OldestOnPath(newTip.block, Headers(blocks));
      assert Ahead(newTip.block, base, blocks, line);
      var run := TracedRun(k, c, best, before, trace);
      if r.Ok? {
        ForwardCanonical(newTip.block, base, blocks, line, bodies, run, after, |blocks|);
      } else {
        var m: nat, failure :| StoppedAt(run, m, failure, r.error, after, bodies, left);
        var n := run.CommittedBeats(m);
        if n > 0 {
          ForwardCanonical(newTip.block, base, blocks, line, bodies, run, after, n);
        }
      }
    }

    lemma LandingCanonical(bodies: map<BlockHash, Body>, s: StateDb, base: Option<BlockHash>)
      requires Valid() && Undoes() && Stores(bodies) && Canonical(s) && (base.Some? ==> base.value in c.side.headers)
      requires Landing(k, c, bodies, s, base).Some?
      ensures Canonical(Landing(k, c, bodies, s, base).value)
    {
      BackCanonical(bodies, s, Disconnects(s.height, if base.Some? then Some(c.side.heights[base.value]) else None));
    }

    lemma OldestOnPath(top: BlockHash, path: seq<Header>)
      requires Valid() && top in c.side.headers && IsPath(c, top, path) && |path| > 0
      ensures OldestBuilt(path)
    {
      assert OnPath(c, top, path, |path| - 1);
    }
  }

  lemma {:induction false} ConsecutiveAt(t: Tree<MainHash>, targets: seq<MainHash>, segments: seq<seq<MainHash>>,
                                         below: int, i: nat)
    requires t.Valid() && -1 <= below && |segments| == |targets| && Consecutive(t, targets, segments, below)
             && i < |targets|
    ensures targets[i] in t.parent && (i > 0 ==> targets[i - 1] in t.parent)
    ensures segments[i] == Rising(t, targets[i], (if i == 0 then below else t.height[targets[i - 1]]) + 1)
    decreases i
  {
    if i > 0 {
      ConsecutiveAt(t, targets[1..], segments[1..], t.height[targets[0]], i - 1);
    }
  }

  // ---- the state's own steps ----

  /** The mainchain events of a block are undone by their inverse. */
  ghost predicate PegUndone(k: Steps) {
    forall s, h, segment {:trigger k.peg(s, h, segment)} :: PegUndoneAt(k, s, h, k.peg(s, h, segment))
  }

  ghost predicate PegUndoneAt(k: Steps, s: StateDb, h: Header, r: Result<Coins.Coins, Option<Db.Error>>) {
    r.Ok? ==> k.unpeg(s.(coins := r.value), h) == Ok(s.coins)
  }

  /** The block is new to the state of its parent's chain. */
  ghost predicate FreshOnChain(w: World, b: BlockHash)
    requires Usable(w.c) && b in w.c.side.headers
  {
    assert w.c.side.Tree().Linked(b);
    w.At(b).Some? ==>
      && var s := w.AtTip(w.c.side.headers[b].prevSide).value;
      && Db.Valid(s) && BlockFresh(s, w.c.side.headers[b], w.contents[b]) && RegistersNew(s, w.contents[b])
  }

  /** If every block is fresh on its chain, disconnecting it from its chain's state leads to its parent's. */
  lemma RoundTripUndoes(w: World, rules: Rules,
                        peg: (StateDb, Header, seq<MainHash>) -> Result<Coins.Coins, Option<Db.Error>>,
                        unpeg: (StateDb, Header) -> Result<Coins.Coins, Option<Db.Error>>)
    requires w.Valid() && w.k == StepsOf(rules, peg, unpeg) && PegUndone(w.k)
    requires forall b | b in w.c.side.headers :: FreshOnChain(w, b)
    ensures w.Undoes()
  {
    forall b | b in w.c.side.headers
      ensures w.UndoneAt(b)
    {
      assert w.c.side.Tree().Linked(b) && FreshOnChain(w, b);
      if w.At(b).Some? {
        StepUndone(w.k, rules, peg, unpeg, w.AtTip(w.c.side.headers[b].prevSide).value, w.BlockOf(b), w.Segment(b));
      }
    }
  }

  lemma FreshCreatesNew(s: StateDb, h: Header, b: Body)
    requires BlockFresh(s, h, b)
    ensures Batching.CreatesNew(s.coins, h, b)
  {
    forall i, j | 0 <= i < j < |b.transactions|
      ensures b.transactions[i].txid != b.transactions[j].txid
    {
      assert Apart(b.transactions, i, j);
    }
    forall i | 0 <= i < |b.transactions|
      ensures Coins.Unplaced(s.coins, Coins.FromTx(b.transactions[i].txid))
    {
      assert NewTx(s, b.transactions[i].txid);
    }
  }

  lemma AppliedBlockUndone(rules: Rules, s: StateDb, h: Header, b: Body)
    requires Db.Valid(s) && BlockFresh(s, h, b) && RegistersNew(s, b) && ApplyBlock(rules, s, h, b).Ok?
    ensures Db.Disconnect(rules, ApplyBlock(rules, s, h, b).value, h, b) == Ok(s)
  {
    FreshCreatesNew(s, h, b);
    ApplyIsConnect(rules, s, h, b);
    StateRoundTrip.DisconnectUndoesConnect(rules, s, h, b);
  }

  lemma StepUndone(k: Steps, rules: Rules,
                   peg: (StateDb, Header, seq<MainHash>) -> Result<Coins.Coins, Option<Db.Error>>,
                   unpeg: (StateDb, Header) -> Result<Coins.Coins, Option<Db.Error>>,
                   s: StateDb, b: Block, segment: seq<MainHash>)
    requires k == StepsOf(rules, peg, unpeg) && PegUndone(k) && k.Forward(s, b, segment).Ok?
    requires Db.Valid(s) && BlockFresh(s, b.header, b.body) && RegistersNew(s, b.body)
    ensures k.Backward(k.Forward(s, b, segment).value, b) == Ok(s)
  {
    var t := k.apply(s, b).value;
    AppliedBlockUndone(rules, s, b.header, b.body);
    PegStepUndone(k, s, t, b, segment);
  }

  lemma PegStepUndone(k: Steps, s: StateDb, t: StateDb, b: Block, segment: seq<MainHash>)
    requires PegUndone(k) && k.Forward(s, b, segment).Ok? && k.apply(s, b) == Ok(t) && k.revert(t, b) == Ok(s)
    ensures k.Backward(k.Forward(s, b, segment).value, b) == Ok(s)
  {
    assert PegUndoneAt(k, t, b.header, k.peg(t, b.header, segment));
    assert t.(coins := k.peg(t, b.header, segment).value).(coins := t.coins) == t;
  }

  /** A tip that is validly committed. */
  ghost predicate Proper(c: Chains, t: Tip)
    requires c.TreesValid()
  {
    t.block in c.side.headers && c.Verifies(t.block, t.main)
  }

  lemma FewerStored(w: World, run: BlockRun, newTip: Tip, r: Result<bool, Reorg.Error>, after: StateDb,
                    bodies: map<BlockHash, Body>, left: map<BlockHash, Body>)
    requires w.Stores(bodies) && Ends(run, newTip, r, after, bodies, left)
    ensures w.Stores(left)
  {
    if r.Err? {
      var m: nat, failure :| StoppedAt(run, m, failure, r.error, after, bodies, left);
    }
  }

  /**
   Follow tips one after the other, successfully or not: a node whose state was
   that of its tip's chain ends with the state of its last tip's chain.
   */
  method FollowTips(node: Node, ghost w: World, tips: seq<Tip>)
    requires node.Valid() && node.db == node.committed && w.Valid() && w.k == node.steps && w.c == node.chains
    requires w.Undoes() && w.Stores(node.bodies) && w.Canonical(node.db)
    requires forall i | 0 <= i < |tips| :: Proper(w.c, tips[i])
    modifies node
    ensures node.Valid() && node.db == node.committed && w.Stores(node.bodies)
    ensures w.Canonical(node.db)
  {
    for i := 0 to |tips|
      invariant node.Valid() && node.db == node.committed && w.Stores(node.bodies) && w.Canonical(node.db)
    {
      FollowTip(node, w, tips[i]);
    }
  }

  method FollowTip(node: Node, ghost w: World, tip: Tip)
    requires node.Valid() && node.db == node.committed && w.Valid() && w.k == node.steps && w.c == node.chains
    requires w.Undoes() && w.Stores(node.bodies) && w.Canonical(node.db) && Proper(w.c, tip)
    modifies node
    ensures node.Valid() && node.db == node.committed && w.Stores(node.bodies) && w.Canonical(node.db)
  {
    ghost var before, bodies := node.db, node.bodies;
    ghost var trace;
    var r;
    r, trace := node.ReorgToTip(tip);
    if trace.Some? {
      var run := TracedRun(w.k, w.c, node.best, before, trace.value);
      FewerStored(w, run, tip, r, node.db, bodies, node.bodies);
      if trace.value.plan.base != Some(tip.block) {
        w.ReorgCanonical(node.best, bodies, node.bodies, before, node.db, tip, r, trace.value);
      }
    }
  }
}
