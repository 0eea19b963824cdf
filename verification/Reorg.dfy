/**
 Moving the state from its tip to a better one: back to the last common
 ancestor, then forward block by block, committing whenever the tip reached so
 far beats the old one. Leaving a write transaction uncommitted restores the
 last commit.
 */
module Reorg {
  import opened Wrappers
  import opened ChainTypes
  import opened HeaderTree
  import opened ArchiveDb
  import opened BetterTip
  import Rule = BetterTip
  import opened Segments
  import opened ReorgRun
  import opened Transactions
  import opened StateDb
  import Db = StateDb
  import Batching = StateBatch
  import Outputs = StateOutputs
  import Validation = StateValidation
  import ArchiveSteps
  import AncestorIter
  import Coins

  datatype Error =
    | ArchiveError(archive: ArchiveSteps.Error)
    | NoBmmResult(unverified: BlockHash)
    | StateError(state: Db.Error)
    | Other

  /** A state error means that the block is invalid; anything else is fatal. */
  predicate IsFatal(e: Error) {
    !e.StateError?
  }

  // ---- one block ----

  /** Validate a block, then connect it in one batch. */
  function ApplyBlock(rules: Rules, s: StateDb, h: Header, b: Body): Result<StateDb, Db.Error> {
    var p :- Batching.Prevalidate(rules, s, h, b);
    Batching.FillAllFills(s.coins, b.transactions);
    Batching.ConnectBatched(rules, s, h, b, p)
  }

  /** An applied block sits on the old tip and becomes the new one. */
  lemma AppliedTip(rules: Rules, s: StateDb, h: Header, b: Body)
    requires ApplyBlock(rules, s, h, b).Ok?
    ensures s.tip == h.prevSide
    ensures ApplyBlock(rules, s, h, b).value.tip == Some(h.hash)
            && ApplyBlock(rules, s, h, b).value.height == Some(NextHeight(s))
  {
    var p := Batching.Prevalidate(rules, s, h, b);
    Batching.PrevalidatedTip(rules, s, h, b);
    Batching.FillAllFills(s.coins, b.transactions);
    Batching.BatchedTip(rules, s, h, b, p.value);
  }

  /** Applying a valid block with new txids gives the state that connecting it transaction by transaction gives. */
  lemma ApplyIsConnect(rules: Rules, s: StateDb, h: Header, b: Body)
    requires Batching.CreatesNew(s.coins, h, b) && Batching.Prevalidate(rules, s, h, b).Ok?
    ensures ApplyBlock(rules, s, h, b) == Db.Connect(rules, s, h, b)
  {
    Batching.BatchedIsSequential(rules, s, h, b);
  }

  /** A block with new outpoints is applied exactly if it is valid and connects, and then it is connected. */
  lemma AppliedExactly(rules: Rules, s: StateDb, h: Header, b: Body)
    requires Batching.CreatesNew(s.coins, h, b)
    ensures ApplyBlock(rules, s, h, b).Ok? <==>
            Validation.ValidBlock(rules, s, h, b) && Outputs.Connectable(rules, s, h, b)
    ensures ApplyBlock(rules, s, h, b).Ok? ==>
              && Outputs.AllIn(s.coins.utxos, b.transactions)
              && Outputs.Connected(rules, s, h, b, ApplyBlock(rules, s, h, b).value)
  {
    Validation.PrevalidateExact(rules, s, h, b);
    Outputs.ConnectExact(rules, s, h, b);
    if Batching.Prevalidate(rules, s, h, b).Ok? {
      ApplyIsConnect(rules, s, h, b);
    }
  }

  /** Disconnecting a block leaves its parent as the tip. */
  lemma DisconnectedTip(rules: Rules, s: StateDb, h: Header, b: Body)
    requires Db.Disconnect(rules, s, h, b).Ok? && s.height.Some?
    ensures s.tip == Some(h.hash) && Db.Disconnect(rules, s, h, b).value.tip == h.prevSide
    ensures Db.Disconnect(rules, s, h, b).value.height == if h.prevSide.None? then None else Some(s.height.value - 1)
    ensures h.prevSide.None? <==> s.height == Some(0)
  {
  }

  type StepResult = Result<StateDb, Option<Db.Error>>

  /**
   How a block moves the state forwards and backwards, and how the mainchain
   events handed to it change coins. An absent error is one that is not about
   the block.
   */
  datatype Steps = Steps(
    apply: (StateDb, Block) -> StepResult,
    revert: (StateDb, Block) -> StepResult,
    peg: (StateDb, Header, seq<MainHash>) -> Result<Coins.Coins, Option<Db.Error>>,
    unpeg: (StateDb, Header) -> Result<Coins.Coins, Option<Db.Error>>)
  {
    /** Applying a block needs its parent as the tip and makes it the tip; reverting is the opposite. */
    ghost predicate Fit() {
      && (forall s, b {:trigger apply(s, b)} :: AppliesOnTip(s, b, apply(s, b)))
      && (forall s, b {:trigger revert(s, b)} :: RevertsTip(s, b, revert(s, b)))
    }

    /** Connect a block: apply it, then the mainchain events of its segment. */
    function Forward(s: StateDb, b: Block, segment: seq<MainHash>): StepResult {
      var t :- apply(s, b);
      var coins :- peg(t, b.header, segment);
      Ok(t.(coins := coins))
    }

    /** Disconnect a block: first the mainchain events, then the block. */
    function Backward(s: StateDb, b: Block): StepResult {
      var coins :- unpeg(s, b.header);
      revert(s.(coins := coins), b)
    }
  }

  ghost predicate AppliesOnTip(s: StateDb, b: Block, r: StepResult) {
    match r
    case Ok(t) => s.tip == b.header.prevSide && t.tip == Some(b.header.hash) && t.height == Some(NextHeight(s))
    case Err(e) => s.tip != b.header.prevSide ==> e.Some?
  }

  ghost predicate RevertsTip(s: StateDb, b: Block, r: StepResult) {
    r.Ok? && s.height.Some? ==>
      && s.tip == Some(b.header.hash) && r.value.tip == b.header.prevSide
      && r.value.height == (if b.header.prevSide.None? then None else Some(s.height.value - 1))
      && (b.header.prevSide.None? <==> s.height == Some(0))
  }

  function Lift<T>(r: Result<T, Db.Error>): Result<T, Option<Db.Error>> {
    match r case Ok(v) => Ok(v) case Err(e) => Err(Some(e))
  }

  function StepsOf(rules: Rules, peg: (StateDb, Header, seq<MainHash>) -> Result<Coins.Coins, Option<Db.Error>>,
                   unpeg: (StateDb, Header) -> Result<Coins.Coins, Option<Db.Error>>): Steps
  {
    Steps((s, b: Block) => Lift(ApplyBlock(rules, s, b.header, b.body)),
          (s, b: Block) => Lift(Db.Disconnect(rules, s, b.header, b.body)),
          peg, unpeg)
  }

  /** The state's own connect and disconnect move the tip as the reorganisation needs. */
  lemma StateStepsFit(rules: Rules, peg: (StateDb, Header, seq<MainHash>) -> Result<Coins.Coins, Option<Db.Error>>,
                      unpeg: (StateDb, Header) -> Result<Coins.Coins, Option<Db.Error>>)
    ensures StepsOf(rules, peg, unpeg).Fit()
  {
    var k := StepsOf(rules, peg, unpeg);
    forall s, b
      ensures AppliesOnTip(s, b, k.apply(s, b))
    {
      if k.apply(s, b).Ok? {
        AppliedTip(rules, s, b.header, b.body);
      }
    }
    forall s, b
      ensures RevertsTip(s, b, k.revert(s, b))
    {
      if k.revert(s, b).Ok? && s.height.Some? {
        DisconnectedTip(rules, s, b.header, b.body);
      }
    }
  }

  // ---- what the node knows ----

  /** The state's tip is a stored header and its height is that header's. */
  ghost predicate TipKnown(c: Chains, s: StateDb) {
    match s.tip
    case None => s.height.None?
    case Some(b) => b in c.side.headers && b in c.side.heights && s.height == Some(c.side.heights[b])
  }

  ghost predicate Usable(c: Chains) {
    && Comparable(c) && c.Sound() && c.side.Index().Valid() && Searchable(c.side.Tree())
    && forall b | b in c.side.headers :: c.side.headers[b].hash == b
  }

  /** `n` parent steps from a tip that may be absent. */
  ghost function Back(c: Chains, tip: Option<BlockHash>, n: nat): Option<BlockHash>
    requires c.TreesValid() && (tip.Some? ==> tip.value in c.side.headers)
  {
    match tip case None => None case Some(b) => c.side.Tree().Up(b, n)
  }

  /** `base` is where the lines of `tip` and `top` meet, if they do. */
  ghost predicate MeetsAt(c: Chains, tip: Option<BlockHash>, top: BlockHash, base: Option<BlockHash>)
    requires c.TreesValid() && top in c.side.headers && (tip.Some? ==> tip.value in c.side.headers)
  {
    match (tip, base)
    case (None, None) => true
    case (None, Some(_)) => false
    case (Some(t), None) => c.side.Tree().Root(t) != c.side.Tree().Root(top)
    case (Some(t), Some(a)) => a in c.side.headers && c.side.Tree().IsLastCommon(a, t, top)
  }

  /** How many blocks are disconnected to get from `tip` to `base`. */
  function Disconnects(tipHeight: Option<nat>, baseHeight: Option<nat>): int {
    if tipHeight.None? then 0
    else if baseHeight.None? then tipHeight.value + 1
    else tipHeight.value - baseHeight.value
  }

  /** The counted disconnects end exactly at the meeting point. */
  lemma DisconnectsLand(c: Chains, tip: Option<BlockHash>, top: BlockHash, base: Option<BlockHash>)
    requires c.TreesValid() && top in c.side.headers && (tip.Some? ==> tip.value in c.side.headers)
             && MeetsAt(c, tip, top, base)
    ensures var n := Disconnects(HeightOf(c, tip), if base.Some? then Some(c.side.heights[base.value]) else None);
            n >= 0 && Back(c, tip, n) == base
  {
    if tip.Some? && base.Some? {
      c.side.Tree().AncestorDepth(base.value, tip.value);
    }
  }

  // ---- going back and forth as functions ----

  /** Disconnect the tip once, reading its header and body from the archive. */
  function OneBack(k: Steps, c: Chains, bodies: map<BlockHash, Body>, s: StateDb): Option<StateDb> {
    if s.tip.None? || s.tip.value !in c.side.headers || s.tip.value !in bodies then None
    else
      var r := k.Backward(s, Block(c.side.headers[s.tip.value], bodies[s.tip.value]));
      if r.Ok? then Some(r.value) else None
  }

  ghost function GoBack(k: Steps, c: Chains, bodies: map<BlockHash, Body>, s: StateDb, n: nat): Option<StateDb> {
    if n == 0 then Some(s)
    else
      var t := GoBack(k, c, bodies, s, n - 1);
      if t.None? then None else OneBack(k, c, bodies, t.value)
  }

  lemma {:induction false} GoBackStops(k: Steps, c: Chains, bodies: map<BlockHash, Body>, s: StateDb, m: nat, n: nat)
    requires m <= n && GoBack(k, c, bodies, s, m).None?
    ensures GoBack(k, c, bodies, s, n).None?
  {
    if m < n {
      GoBackStops(k, c, bodies, s, m, n - 1);
    }
  }

  type BlockRun = Run<StateDb, BlockHash, Option<Db.Error>>

  /** The hash of block `i`, counted from the oldest; `blocks` are newest first. */
  ghost function Naming(blocks: seq<Block>): nat -> BlockHash {
    (i: nat) => if i < |blocks| then blocks[|blocks| - 1 - i].header.hash else BlockHash(0)
  }

  /** Connecting block `i`, counted from the oldest, with its mainchain segment. */
  ghost function Connecting(k: Steps, blocks: seq<Block>, line: seq<MainHash>): (nat, StateDb) -> StepResult {
    (i: nat, s: StateDb) =>
      if i < |blocks| then k.Forward(s, blocks[|blocks| - 1 - i], SegmentAt(line, Targets(Headers(blocks)), i))
      else Err(None)
  }

  /** The run that connects `blocks` on `start`, oldest first. */
  ghost function RunOf(k: Steps, judged: BlockHash -> bool, beats: BlockHash -> bool, blocks: seq<Block>,
                       line: seq<MainHash>, start: StateDb, saved: StateDb): BlockRun
  {
    Run(|blocks|, Naming(blocks), Connecting(k, blocks, line), judged, beats, start, saved)
  }

  function ErrorOf(e: Option<Db.Error>): Error {
    match e case None => Other case Some(x) => StateError(x)
  }

  lemma ForwardTip(k: Steps, s: StateDb, b: Block, segment: seq<MainHash>)
    requires k.Fit()
    ensures AppliesOnTip(s, b, k.Forward(s, b, segment)) || s.tip == b.header.prevSide
    ensures k.Forward(s, b, segment).Ok? ==> AppliesOnTip(s, b, k.Forward(s, b, segment))
  {
    assert AppliesOnTip(s, b, k.apply(s, b));
  }

  lemma BackwardTip(k: Steps, s: StateDb, b: Block)
    requires k.Fit() && k.Backward(s, b).Ok?
    ensures RevertsTip(s, b, k.Backward(s, b))
  {
    var t := s.(coins := k.unpeg(s, b.header).value);
    assert RevertsTip(t, b, k.revert(t, b));
  }

  // ---- what a reorganisation leaves behind ----

  /**
   Record of one reorganisation: its plan, the state where the disconnects ended,
   and the mainchain blocks to hand out (newest first).
   */
  datatype Trace = Trace(plan: Plan, landing: StateDb, line: seq<MainHash>)

  /** The old tip, the meeting point, and the blocks to apply, newest first. */
  datatype Plan = Plan(oldTip: Option<Tip>, base: Option<BlockHash>, blocks: seq<Block>)

  /** The new tip beats the old one, and the blocks lead from the meeting point to it. */
  ghost predicate PlanFits(c: Chains, before: StateDb, newTip: Tip, plan: Plan)
    requires Usable(c) && TipKnown(c, before)
  {
    && (before.tip.None? <==> plan.oldTip.None?)
    && (plan.oldTip.Some? ==> before.tip == Some(plan.oldTip.value.block))
    && Beats(c, plan.oldTip, newTip) && newTip.block in c.side.headers
    && MeetsAt(c, before.tip, newTip.block, plan.base)
    && PathFrom(c, newTip.block, plan.base, Headers(plan.blocks)) && |plan.blocks| > 0
  }

  /** The block has a best verification, and the rule answers when its tip is compared with the old one. */
  ghost predicate JudgedTip(c: Chains, best: map<BlockHash, MainHash>, oldTip: Option<Tip>, b: BlockHash)
    requires Comparable(c)
  {
    b in best && (oldTip.Some? ==> Better(c, oldTip.value, Tip(b, best[b])).Ok?)
  }

  /** These blocks. */
  ghost function Judged(c: Chains, best: map<BlockHash, MainHash>, oldTip: Option<Tip>): BlockHash -> bool
    requires Comparable(c)
  {
    b => JudgedTip(c, best, oldTip, b)
  }

  /** The blocks whose tips beat the old one. */
  ghost function Beating(c: Chains, best: map<BlockHash, MainHash>, oldTip: Option<Tip>): BlockHash -> bool
    requires Comparable(c)
  {
    b => b in best && Beats(c, oldTip, Tip(b, best[b]))
  }

  ghost predicate Beats(c: Chains, oldTip: Option<Tip>, t: Tip)
    requires Comparable(c)
  {
    oldTip.None? || Better(c, oldTip.value, t) == Ok(Some(t))
  }

  /**
   The path of a reorganisation: from the new tip down to the meeting point, or
   to genesis if the new tip is the meeting point itself.
   */
  ghost predicate PathFrom(c: Chains, top: BlockHash, base: Option<BlockHash>, path: seq<Header>)
    requires c.TreesValid() && top in c.side.headers
  {
    PathAbove(c, top, if base == Some(top) then None else base, path)
  }

  /** The open state and the mainchain blocks left after `m` blocks. */
  ghost predicate Moved(blocks: seq<Block>, line: seq<MainHash>, start: StateDb, m: nat, db: StateDb,
                        left: seq<MainHash>) {
    && m <= |blocks| && left == LeftAt(line, Targets(Headers(blocks)), m)
    && db.tip == if m == 0 then start.tip else Some(blocks[|blocks| - m].header.hash)
  }

  /** The block that comes next is connected with what is taken from the mainchain blocks left. */
  lemma NextStep(k: Steps, blocks: seq<Block>, line: seq<MainHash>, start: StateDb, m: nat, n: nat, db: StateDb,
                 left: seq<MainHash>)
    requires n + m + 1 == |blocks| && Moved(blocks, line, start, m, db, left)
    ensures Naming(blocks)(m) == blocks[n].header.hash
    ensures Connecting(k, blocks, line)(m, db) == k.Forward(db, blocks[n], Taken(left, blocks[n].header.prevMain))
    ensures Moved(blocks, line, start, m + 1, db.(tip := Some(blocks[n].header.hash)),
                  Left(left, blocks[n].header.prevMain))
  {
    assert Targets(Headers(blocks))[m] == blocks[n].header.prevMain;
  }

  lemma NextOnPath(c: Chains, top: BlockHash, blocks: seq<Block>, n: nat)
    requires c.TreesValid() && top in c.side.headers && IsPath(c, top, Headers(blocks)) && n < |blocks|
    ensures blocks[n].header.hash in c.side.headers && c.side.headers[blocks[n].header.hash] == blocks[n].header
    ensures n == 0 ==> blocks[n].header.hash == top
  {
    assert OnPath(c, top, Headers(blocks), n);
    assert c.side.Tree().Up(top, 0) == Some(top);
  }

  /** Does an error say what failed: the block, or that its tip could not be judged? */
  ghost predicate Explains(e: Error, failure: Option<Option<Db.Error>>) {
    match failure case Some(x) => e == ErrorOf(x) case None => IsFatal(e)
  }

  /**
   What an error leaves: the last commit, and the bodies, less that of the block
   that failed if the error is about the block.
   */
  ghost predicate StoppedAt(run: BlockRun, m: nat, failure: Option<Option<Db.Error>>, e: Error, committed: StateDb,
                            before: map<BlockHash, Body>, after: map<BlockHash, Body>)
  {
    && run.FailsAt(m, failure) && Explains(e, failure) && committed == run.CommittedAt(m)
    && after == if IsFatal(e) then before else before - {run.nth(m)}
  }

  ghost predicate Stopped(run: BlockRun, e: Error, committed: StateDb,
                          before: map<BlockHash, Body>, after: map<BlockHash, Body>)
  {
    exists m: nat, failure :: StoppedAt(run, m, failure, e, committed, before, after)
  }

  /** How the run ends: everything is applied, or the first failure stands. */
  ghost predicate Outcome(run: BlockRun, top: BlockHash, r: Result<(), Error>, db: StateDb, committed: StateDb,
                          before: map<BlockHash, Body>, after: map<BlockHash, Body>)
  {
    match r
    case Ok(_) =>
      run.Passed(run.count) && run.Reached(run.count) == Some(db) && db.tip == Some(top) && after == before
    case Err(e) => !run.Passed(run.count) && db == committed && Stopped(run, e, committed, before, after)
  }

  lemma StoppedIsOutcome(run: BlockRun, top: BlockHash, e: Error, db: StateDb, committed: StateDb,
                         before: map<BlockHash, Body>, after: map<BlockHash, Body>)
    requires Stopped(run, e, committed, before, after) && db == committed
    ensures Outcome(run, top, Err(e), db, committed, before, after)
  {
    var m: nat, failure :| StoppedAt(run, m, failure, e, committed, before, after);
    run.FailedNotPassed(m, failure);
  }

  /** A block that does not fit on the start fails as an invalid block does. */
  lemma MisfitFails(k: Steps, blocks: seq<Block>, line: seq<MainHash>, start: StateDb)
    requires k.Fit() && |blocks| > 0 && start.tip != blocks[|blocks| - 1].header.prevSide
    ensures var r := Connecting(k, blocks, line)(0, start); r.Err? && r.error.Some?
  {
    var b := blocks[|blocks| - 1];
    var segment := SegmentAt(line, Targets(Headers(blocks)), 0);
    ForwardTip(k, start, b, segment);
    assert AppliesOnTip(start, b, k.apply(start, b));
  }

  /** Then the run has only one outcome. */
  lemma MisfitOutcome(run: BlockRun, top: BlockHash, r: Result<(), Error>, db: StateDb, committed: StateDb,
                      before: map<BlockHash, Body>, after: map<BlockHash, Body>)
    requires run.count > 0 && run.connect(0, run.start).Err? && run.connect(0, run.start).error.Some?
    requires Outcome(run, top, r, db, committed, before, after)
    ensures r.Err? && !IsFatal(r.error) && db == committed == run.saved
    ensures after == before - {run.nth(0)}
  {
    run.NeverPasses();
    var m: nat, failure :| StoppedAt(run, m, failure, r.error, committed, before, after);
    run.FirstFails(m, failure);
  }

  /** Where the loop over the blocks stands after `m` of them. */
  ghost predicate Advancing(run: BlockRun, blocks: seq<Block>, line: seq<MainHash>, m: nat, db: StateDb,
                            committed: StateDb, left: seq<MainHash>)
  {
    Moved(blocks, line, run.start, m, db, left) && run.Going(m, db, committed)
  }

  /** `run` applies these blocks, from whatever state it starts in. */
  ghost predicate RunsBlocks(run: BlockRun, k: Steps, c: Chains, best: map<BlockHash, MainHash>, oldTip: Option<Tip>,
                             blocks: seq<Block>, line: seq<MainHash>)
    requires Comparable(c)
  {
    run == RunOf(k, Judged(c, best, oldTip), Beating(c, best, oldTip), blocks, line, run.start, run.saved)
  }

  lemma Sets(run: BlockRun, k: Steps, c: Chains, best: map<BlockHash, MainHash>, oldTip: Option<Tip>,
             blocks: seq<Block>, line: seq<MainHash>, db: StateDb, committed: StateDb)
    requires Comparable(c)
    requires run == RunOf(k, Judged(c, best, oldTip), Beating(c, best, oldTip), blocks, line, db, committed)
    ensures RunsBlocks(run, k, c, best, oldTip, blocks, line)
    ensures Advancing(run, blocks, line, 0, db, committed, line)
  {
    run.Starts();
  }

  lemma Finishes(run: BlockRun, k: Steps, c: Chains, best: map<BlockHash, MainHash>, oldTip: Option<Tip>,
                 top: BlockHash, blocks: seq<Block>, line: seq<MainHash>, db: StateDb, committed: StateDb,
                 left: seq<MainHash>, bodies: map<BlockHash, Body>)
    requires Comparable(c) && Advancing(run, blocks, line, |blocks|, db, committed, left)
    requires RunsBlocks(run, k, c, best, oldTip, blocks, line) && |blocks| > 0
    requires c.TreesValid() && top in c.side.headers && IsPath(c, top, Headers(blocks))
    ensures Outcome(run, top, Ok(()), db, committed, bodies, bodies)
  {
    NextOnPath(c, top, blocks, 0);
  }

  class Node {
    const chains: Chains
    /** The best mainchain verification of each verified block. */
    const best: map<BlockHash, MainHash>
    const steps: Steps
    /** The state inside the open write transaction, and as last committed. */
    var db: StateDb
    var committed: StateDb
    var bodies: map<BlockHash, Body>

    ghost predicate Valid()
      reads this
    {
      Usable(chains) && steps.Fit() && TipKnown(chains, db) && TipKnown(chains, committed)
    }

    constructor (c: Chains, best: map<BlockHash, MainHash>, steps: Steps, bodies: map<BlockHash, Body>)
      requires Usable(c) && steps.Fit()
      ensures Valid() && chains == c && this.best == best && this.steps == steps && this.bodies == bodies
      ensures db == committed == EMPTY_STATE
    {
      chains, this.best, this.steps, this.bodies := c, best, steps, bodies;
      db, committed := EMPTY_STATE, EMPTY_STATE;
    }

    /** The state's tip with its best verification. */
    method CurrentTip() returns (r: Result<Option<Tip>, Error>)
      ensures r.Ok? <==> db.tip.None? || db.tip.value in best
      ensures r.Ok? ==> (r.value.None? <==> db.tip.None?)
      ensures r.Ok? && r.value.Some? ==> db.tip == Some(r.value.value.block)
                                         && r.value.value.block in best
                                         && r.value.value.main == best[r.value.value.block]
    {
      if db.tip.None? { return Ok(None); }
      if db.tip.value !in best { return Err(NoBmmResult(db.tip.value)); }
      return Ok(Some(Tip(db.tip.value, best[db.tip.value])));
    }

    // ---- backwards ----

    method DisconnectTip() returns (r: Result<(), Error>)
      requires Valid()
      modifies `db
      ensures r.Ok? <==> OneBack(steps, chains, bodies, old(db)).Some?
      ensures r.Ok? ==> Valid() && OneBack(steps, chains, bodies, old(db)) == Some(db)
      ensures r.Ok? ==> old(db).tip.Some? && db.tip == chains.side.headers[old(db).tip.value].prevSide
    {
      if db.tip.None? || db.height.None? { return Err(StateError(NoTip)); }
      var hash := db.tip.value;
      if hash !in chains.side.headers { return Err(ArchiveError(ArchiveSteps.NoHeader(hash))); }
      if hash !in bodies { return Err(ArchiveError(ArchiveSteps.NoBody(hash))); }
      var block := Block(chains.side.headers[hash], bodies[hash]);
      var back := steps.Backward(db, block);
      if back.Err? { return Err(ErrorOf(back.error)); }
      BackwardTip(steps, db, block);
      assert chains.side.Tree().Linked(hash);
      db := back.value;
      return Ok(());
    }

    method DisconnectTimes(n: nat) returns (r: Result<(), Error>)
      requires Valid()
      modifies `db
      ensures r.Ok? <==> GoBack(steps, chains, bodies, old(db), n).Some?
      ensures r.Ok? ==>
                Valid() && db.tip == Back(chains, old(db).tip, n)
                && GoBack(steps, chains, bodies, old(db), n) == Some(db)
    {
      ghost var t := chains.side.Tree();
      var i := 0;
      while i < n
        invariant i <= n && Valid() && db.tip == Back(chains, old(db).tip, i)
        invariant GoBack(steps, chains, bodies, old(db), i) == Some(db)
      {
        ghost var before := db.tip;
        var d := DisconnectTip();
        if d.Err? {
          GoBackStops(steps, chains, bodies, old(db), i + 1, n);
          return Err(d.error);
        }
        t.UpPlus(old(db).tip.value, i, 1);
        assert t.Linked(before.value);
        assert t.Up(before.value, 1) == match t.parent[before.value] case None => None case Some(p) => t.Up(p, 0);
        i := i + 1;
      }
      return Ok(());
    }

    // ---- what lies ahead ----

    method ReadBlock(hash: BlockHash) returns (r: Result<Block, Error>)
      ensures r.Ok? <==> hash in chains.side.headers && hash in bodies
      ensures r.Ok? ==>
                hash in chains.side.headers && hash in bodies
                && r.value == Block(chains.side.headers[hash], bodies[hash])
    {
      if hash !in chains.side.headers { return Err(ArchiveError(ArchiveSteps.NoHeader(hash))); }
      if hash !in bodies { return Err(ArchiveError(ArchiveSteps.NoBody(hash))); }
      return Ok(Block(chains.side.headers[hash], bodies[hash]));
    }

    /** The new tip and its ancestors above the common ancestor, newest first; every body must be there. */
    method BlocksToApply(top: BlockHash, base: Option<BlockHash>) returns (r: Result<seq<Block>, Error>)
      requires Valid() && top in chains.side.headers
      requires base.Some? ==> base.value in chains.side.headers && chains.side.Tree().IsAncestor(base.value, top)
      ensures r.Ok? ==> PathFrom(chains, top, base, Headers(r.value)) && |r.value| > 0 && AllRead(bodies, r.value)
      ensures base.Some? ==> chains.side.heights[base.value] <= chains.side.heights[top]
      ensures r.Ok? <==> BodiesStored(chains, bodies, top, base)
    {
      ghost var t := chains.side.Tree();
      if base.Some? {
        t.AncestorDepth(base.value, top);
      }
      assert t.Up(top, 0) == Some(top);
      var head := ReadBlock(top);
      if head.Err? {
        BodyMissing(chains, bodies, top, base, 0);
        return Err(head.error);
      }
      var blocks := [head.value];
      var cur := head.value.header.prevSide;
      t.UpPlus(top, 0, 1);
      assert t.Linked(top);
      assert t.Up(top, 1) == match t.parent[top] case None => None case Some(p) => t.Up(p, 0);
      while cur.Some? && cur != base
        invariant 0 < |blocks| <= t.height[top] + 1 && IsPath(chains, top, Headers(blocks)) && AllRead(bodies, blocks)
        invariant cur == t.Up(top, |blocks|)
        invariant base.Some? && base != Some(top) ==> |blocks| <= t.height[top] - t.height[base.value]
        decreases t.height[top] + 1 - |blocks|
      {
        var block := ReadBlock(cur.value);
        if block.Err? {
          BodyMissing(chains, bodies, top, base, |blocks|);
          return Err(block.error);
        }
        ghost var before := Headers(blocks);
        t.UpPlus(top, |blocks|, 1);
        assert t.Linked(cur.value);
        assert t.Up(cur.value, 1) == match t.parent[cur.value] case None => None case Some(p) => t.Up(p, 0);
        if base.Some? {
          t.AncestorDepth(base.value, top);
        }
        ExtendPath(chains, top, before, block.value.header);
        blocks := blocks + [block.value];
        assert Headers(blocks) == before + [block.value.header];
        cur := block.value.header.prevSide;
      }
      if base.Some? {
        t.AncestorDepth(base.value, top);
      }
      assert base == Some(top) ==> cur.None?;
      assert cur.None? ==> |blocks| == t.height[top] + 1;
      PlannedIs(chains, bodies, top, base, blocks);
      return Ok(blocks);
    }

    /** Mainchain ancestors of `top`, newest first, down to just above `stop`; every block info must be there. */
    method MainLine(top: MainHash, stop: Option<MainHash>) returns (r: Result<seq<MainHash>, Error>)
      requires Valid()
      ensures r.Ok? ==> LineAbove(chains, top, stop, r.value)
      ensures r.Ok? <==> LineStored(chains, top, stop)
    {
      ghost var t := chains.main.Tree();
      var line: seq<MainHash> := [];
      var cur := top;
      while cur != ZERO_HASH && Some(cur) != stop
        invariant top in t.parent ==>
                  |line| <= t.height[top] + 1 && IsLine(t, top, line) && MainParent(cur) == t.Up(top, |line|)
        invariant top in t.parent && StopsLine(t, top, stop) ==> |line| <= t.height[top] - t.height[stop.value]
        invariant top !in t.parent ==> line == [] && cur == top
        invariant forall i | 0 <= i < |line| :: line[i] in chains.infos
        decreases if top in t.parent then t.height[top] + 1 - |line| else 0
      {
        if cur !in chains.main.headers { return Err(ArchiveError(ArchiveSteps.NoMainHeaderInfo(cur))); }
        if cur !in chains.infos {
          InfoMissing(chains, top, stop, |line|);
          return Err(ArchiveError(ArchiveSteps.NoMainBlockInfo(cur)));
        }
        t.UpPlus(top, |line|, 1);
        assert t.Linked(cur);
        assert t.Up(cur, 1) == match t.parent[cur] case None => None case Some(p) => t.Up(p, 0);
        if StopsLine(t, top, stop) {
          t.AncestorDepth(stop.value, top);
        }
        line := line + [cur];
        cur := chains.main.headers[cur].prev;
      }
      if stop.Some? && top in t.parent {
        t.AncestorDepth(stop.value, top);
      }
      assert top in t.parent && cur == ZERO_HASH ==> |line| == t.height[top] + 1;
      InfosThere(chains, top, stop, line);
      return Ok(line);
    }

    // ---- forwards ----

    method ConnectTip(block: Block, segment: seq<MainHash>) returns (r: Result<(), Error>)
      requires Valid() && block.header.hash in chains.side.headers
               && chains.side.headers[block.header.hash] == block.header
      modifies `db
      ensures r.Ok? ==> Valid() && steps.Forward(old(db), block, segment) == Ok(db)
      ensures r.Ok? ==> old(db).tip == block.header.prevSide && db.tip == Some(block.header.hash)
      ensures r.Err? ==>
                steps.Forward(old(db), block, segment).Err?
                && r.error == ErrorOf(steps.Forward(old(db), block, segment).error)
    {
      var forward := steps.Forward(db, block, segment);
      ForwardTip(steps, db, block, segment);
      if forward.Err? { return Err(ErrorOf(forward.error)); }
      assert chains.side.Tree().Linked(block.header.hash);
      db := forward.value;
      return Ok(());
    }

    /** Is the tip reached so far worth committing? */
    method WorthCommitting(oldTip: Option<Tip>) returns (r: Result<bool, Error>)
      requires Valid() && db.tip.Some?
      ensures r.Ok? <==> db.tip.value in best
                         && (oldTip.Some? ==> Better(chains, oldTip.value, Tip(db.tip.value, best[db.tip.value])).Ok?)
      ensures r.Ok? ==> r.value == Beats(chains, oldTip, Tip(db.tip.value, best[db.tip.value]))
      ensures r.Err? ==> IsFatal(r.error)
    {
      if db.tip.value !in best { return Err(NoBmmResult(db.tip.value)); }
      var reached := Tip(db.tip.value, best[db.tip.value]);
      if oldTip.None? { return Ok(true); }
      var better := Rule.BetterTip(chains, oldTip.value, reached);
      if better.Err? { return Err(ArchiveError(better.error)); }
      return Ok(better.value == Some(reached));
    }

    /** Abandon the open transaction; a block that turned out invalid loses its stored body. */
    method Abandon(block: Block, e: Error) returns (r: Result<(), Error>)
      requires Valid()
      modifies `db, `bodies
      ensures Valid() && db == committed && r == Err(e)
      ensures bodies == if IsFatal(e) then old(bodies) else old(bodies) - {block.header.hash}
    {
      db := committed;
      if !IsFatal(e) { bodies := bodies - {block.header.hash}; }
      return Err(e);
    }

    /** Connect one block and commit if the old tip is beaten. */
    method AdvanceOne(block: Block, segment: seq<MainHash>, oldTip: Option<Tip>) returns (r: Result<(), Error>)
      requires Valid() && block.header.hash in chains.side.headers
               && chains.side.headers[block.header.hash] == block.header
      modifies this
      ensures Valid()
      ensures r.Ok? ==> steps.Forward(old(db), block, segment) == Ok(db) && bodies == old(bodies)
      ensures r.Ok? ==> old(db).tip == block.header.prevSide && db.tip == Some(block.header.hash)
      ensures r.Ok? ==> Judged(chains, best, oldTip)(block.header.hash)
      ensures r.Ok? ==> committed == if Beating(chains, best, oldTip)(block.header.hash) then db else old(committed)
      ensures r.Err? ==> db == committed == old(committed)
      ensures r.Err? ==>
                if steps.Forward(old(db), block, segment).Err?
                then r.error == ErrorOf(steps.Forward(old(db), block, segment).error)
                else IsFatal(r.error) && !Judged(chains, best, oldTip)(block.header.hash)
      ensures r.Err? ==> bodies == if IsFatal(r.error) then old(bodies) else old(bodies) - {block.header.hash}
    {
      var connected := ConnectTip(block, segment);
      if connected.Err? {
        db := committed;
        r := Abandon(block, connected.error);
        return;
      }
      var worth := WorthCommitting(oldTip);
      if worth.Err? {
        db := committed;
        return Err(worth.error);
      }
      if worth.value { committed := db; }
      r := Ok(());
    }

    /** Apply the oldest block that is left, handing it its mainchain segment. */
    method ApplyNext(ghost run: BlockRun, top: BlockHash, m: nat, blocks: seq<Block>, ghost line: seq<MainHash>,
                     left: seq<MainHash>, oldTip: Option<Tip>)
      returns (r: Result<(), Error>, rest: seq<MainHash>)
      requires Valid() && m < |blocks| && top in chains.side.headers && IsPath(chains, top, Headers(blocks))
      requires RunsBlocks(run, steps, chains, best, oldTip, blocks, line)
      requires Advancing(run, blocks, line, m, db, committed, left)
      modifies this
      ensures Valid()
      ensures r.Ok? ==> bodies == old(bodies) && Advancing(run, blocks, line, m + 1, db, committed, rest)
      ensures r.Err? ==> db == committed && Stopped(run, r.error, committed, old(bodies), bodies)
    {
      var n := |blocks| - m - 1;
      var block := blocks[n];
      NextOnPath(chains, top, blocks, n);
      NextStep(steps, blocks, line, run.start, m, n, db, left);
      ghost var db0, committed0 := db, committed;
      var segment;
      segment, rest := Take(left, block.header.prevMain);
      r := AdvanceOne(block, segment, oldTip);
      if r.Ok? {
        run.GoesOn(m, db0, committed0, db, committed);
      } else {
        ghost var step := run.connect(m, db0);
        ghost var failure := if step.Err? then Some(step.error) else None;
        run.FailsNow(m, db0, committed0, failure);
        assert StoppedAt(run, m, failure, r.error, committed, old(bodies), bodies);
      }
    }

    /** Apply blocks from the oldest on, until one fails. */
    method ApplyInOrder(ghost run: BlockRun, top: BlockHash, blocks: seq<Block>, line: seq<MainHash>,
                        oldTip: Option<Tip>)
      returns (r: Result<(), Error>, left: seq<MainHash>)
      requires Valid() && top in chains.side.headers && IsPath(chains, top, Headers(blocks))
      requires RunsBlocks(run, steps, chains, best, oldTip, blocks, line)
      requires Advancing(run, blocks, line, 0, db, committed, line)
      modifies this
      ensures Valid()
      ensures r.Ok? ==> bodies == old(bodies) && Advancing(run, blocks, line, |blocks|, db, committed, left)
      ensures r.Err? ==> db == committed && Stopped(run, r.error, committed, old(bodies), bodies)
    {
      r, left := Ok(()), line;
      for m := 0 to |blocks|
        invariant r.Ok? && Valid() && bodies == old(bodies)
        invariant Advancing(run, blocks, line, m, db, committed, left)
      {
        r, left := ApplyNext(run, top, m, blocks, line, left, oldTip);
        if r.Err? { return; }
      }
    }

    /** Apply blocks from the oldest on: all of them connect and are judged, or the first that does not ends it. */
    method ApplyBlocks(top: BlockHash, blocks: seq<Block>, line: seq<MainHash>, oldTip: Option<Tip>,
                       ghost run: BlockRun)
      returns (r: Result<(), Error>)
      requires Valid() && |blocks| > 0 && top in chains.side.headers && IsPath(chains, top, Headers(blocks))
      requires run == RunOf(steps, Judged(chains, best, oldTip), Beating(chains, best, oldTip), blocks, line, db,
                            committed)
      modifies this
      ensures Valid() && Outcome(run, top, r, db, committed, old(bodies), bodies)
    {
      Sets(run, steps, chains, best, oldTip, blocks, line, db, committed);
      ghost var left;
      r, left := ApplyInOrder(run, top, blocks, line, oldTip);
      if r.Err? {
        StoppedIsOutcome(run, top, r.error, db, committed, old(bodies), bodies);
      } else {
        Finishes(run, steps, chains, best, oldTip, top, blocks, line, db, committed, left, bodies);
      }
    }

    // ---- the whole reorganisation ----

    /** Where the lines of the current tip and of the new tip meet. */
    method CommonAncestor(tip: Option<Tip>, top: BlockHash) returns (r: Option<BlockHash>)
      requires Valid() && top in chains.side.headers && (tip.Some? ==> tip.value.block in chains.side.headers)
      ensures MeetsAt(chains, if tip.Some? then Some(tip.value.block) else None, top, r)
    {
      if tip.None? { return None; }
      var x := LastCommonAncestor(chains.side.Index(), tip.value.block, top);
      return x.value;
    }

    /** Should the new tip replace the current one? */
    method GuardPasses(tip: Option<Tip>, newTip: Tip) returns (r: Result<bool, Error>)
      requires Valid()
      ensures r.Ok? <==> (tip.Some? ==> Better(chains, tip.value, newTip).Ok?)
      ensures r.Ok? ==> r.value == Beats(chains, tip, newTip)
      ensures r.Ok? && tip.Some? && r.value ==> newTip.block in chains.side.headers
    {
      if tip.None? { return Ok(true); }
      var better := Rule.BetterTip(chains, tip.value, newTip);
      if better.Err? { return Err(ArchiveError(better.error)); }
      return Ok(better.value == Some(newTip));
    }

    /** Decide whether to move, and read everything that the move needs; no plan if the new tip is not better. */
    method Prepare(newTip: Tip) returns (r: Result<Option<Plan>, Error>)
      requires Valid()
      ensures r == Ok(None) <==> Declines(chains, best, db, newTip)
      ensures r.Ok? && r.value.Some? <==> exists base :: Plannable(chains, best, bodies, db, newTip, base)
      ensures r.Ok? && r.value.Some? ==>
              PlanFits(chains, db, newTip, r.value.value) && AllRead(bodies, r.value.value.blocks)
              && r.value.value.oldTip == TipOf(best, db)
              && Plannable(chains, best, bodies, db, newTip, r.value.value.base)
    {
      var tip := CurrentTip();
      if tip.Err? { return Err(tip.error); }
      var passes := GuardPasses(tip.value, newTip);
      if passes.Err? { return Err(passes.error); }
      if !passes.value { return Ok(None); }
      if newTip.block !in chains.side.headers { return Err(ArchiveError(ArchiveSteps.NoHeader(newTip.block))); }
      var base := CommonAncestor(tip.value, newTip.block);
      var blocks := BlocksToApply(newTip.block, base);
      if blocks.Err? {
        forall other | Plannable(chains, best, bodies, db, newTip, other)
          ensures false
        {
          MeetsUnique(chains, db.tip, newTip.block, base, other);
        }
        return Err(blocks.error);
      }
      assert Plannable(chains, best, bodies, db, newTip, base);
      return Ok(Some(Plan(tip.value, base, blocks.value)));
    }

    /** Disconnect down to the planned meeting point. */
    method Retreat(newTip: Tip, plan: Plan) returns (r: Result<(), Error>)
      requires Valid() && PlanFits(chains, db, newTip, plan)
      modifies `db
      ensures r.Ok? <==> Landing(steps, chains, bodies, old(db), plan.base).Some?
      ensures r.Ok? ==> Valid() && db.tip == plan.base && Landing(steps, chains, bodies, old(db), plan.base) == Some(db)
    {
      DisconnectsLand(chains, db.tip, newTip.block, plan.base);
      var stop := if plan.base.Some? then Some(chains.side.heights[plan.base.value]) else None;
      r := DisconnectTimes(Disconnects(db.height, stop));
    }

    /** The mainchain blocks to hand out, newest first. */
    method LineFor(newTip: Tip, plan: Plan) returns (r: Result<seq<MainHash>, Error>)
      requires Valid() && newTip.block in chains.side.headers && |plan.blocks| > 0
      requires plan.base.Some? ==> plan.base.value in chains.side.headers
      requires PathFrom(chains, newTip.block, plan.base, Headers(plan.blocks))
      ensures r.Ok? && plan.base != Some(newTip.block) ==>
              SegmentsHandedOut(chains, newTip.block, plan.base, plan.blocks, r.value)
      ensures r.Ok? <==> LineStored(chains, chains.side.headers[newTip.block].prevMain, StopOf(chains, plan.base))
      ensures r.Ok? ==>
                r.value == PlannedLine(chains, chains.side.headers[newTip.block].prevMain, StopOf(chains, plan.base))
    {
      var stop := if plan.base.Some? then Some(chains.side.headers[plan.base.value].prevMain) else None;
      assert OnPath(chains, newTip.block, Headers(plan.blocks), 0);
      assert chains.side.Tree().Up(newTip.block, 0) == Some(newTip.block);
      r := MainLine(plan.blocks[0].header.prevMain, stop);
      if r.Ok? && plan.base != Some(newTip.block) {
        SegmentsOfPath(chains, newTip.block, plan.base, Headers(plan.blocks), r.value);
      }
    }

    /** Go back to the meeting point and read the mainchain blocks ahead; an error abandons the transaction. */
    method Descend(newTip: Tip, plan: Plan) returns (r: Result<seq<MainHash>, Error>)
      requires Valid() && PlanFits(chains, db, newTip, plan) && db == committed
      modifies `db
      ensures Valid() && (r.Err? ==> db == old(db))
      ensures r.Ok? ==> db.tip == plan.base && Landing(steps, chains, bodies, old(db), plan.base) == Some(db)
      ensures r.Ok? && plan.base != Some(newTip.block) ==>
              SegmentsHandedOut(chains, newTip.block, plan.base, plan.blocks, r.value)
      ensures r.Ok? <==>
              Landing(steps, chains, bodies, old(db), plan.base).Some?
              && LineStored(chains, chains.side.headers[newTip.block].prevMain, StopOf(chains, plan.base))
      ensures r.Ok? ==>
                r.value == PlannedLine(chains, chains.side.headers[newTip.block].prevMain, StopOf(chains, plan.base))
    {
      var undone := Retreat(newTip, plan);
      if undone.Err? { db := committed; return Err(undone.error); }
      r := LineFor(newTip, plan);
      if r.Err? { db := committed; }
    }

    /**
     Move to `newTip`. Nothing is attempted exactly if there is a tip that the new
     one does not beat; the move succeeds exactly if the new tip is reachable;
     after an error the last committed state stands, and a block that failed has
     lost its body.
     */
    method ReorgToTip(newTip: Tip) returns (r: Result<bool, Error>, ghost trace: Option<Trace>)
      requires Valid() && db == committed
      modifies this
      ensures Valid() && db == committed
      ensures r == Ok(false) <==> Declines(chains, best, old(db), newTip)
      ensures r == Ok(true) <==> Reachable(steps, chains, best, old(bodies), old(db), newTip)
      ensures trace.None? ==> r != Ok(true) && db == old(db) && bodies == old(bodies)
      ensures trace.Some? ==>
                r != Ok(false)
                && TraceFits(steps, chains, old(bodies), old(db), newTip, trace.value)
                && Ends(TracedRun(steps, chains, best, old(db), trace.value), newTip, r, db, old(bodies), bodies)
      ensures r == Ok(true) ==> trace.Some?
      ensures trace.Some? && trace.value.plan.base != Some(newTip.block) ==>
                SegmentsHandedOut(chains, newTip.block, trace.value.plan.base, trace.value.plan.blocks,
                                  trace.value.line)
      ensures trace.Some? && trace.value.plan.base == Some(newTip.block) ==>
                && r.Err? && !IsFatal(r.error) && db == old(db)
                && bodies == old(bodies) - {chains.side.Tree().Root(newTip.block)}
    {
      var plan := Prepare(newTip);
      if plan.Err? { return Err(plan.error), None; }
      if plan.value.None? { return Ok(false), None; }
      var line := Descend(newTip, plan.value.value);
      if line.Err? {
        NotReachable(steps, chains, best, bodies, old(db), newTip, plan.value.value.base);
        return Err(line.error), None;
      }
      trace := Some(Trace(plan.value.value, db, line.value));
      var applied := Ascend(newTip, plan.value.value, line.value, TracedRun(steps, chains, best, old(db), trace.value));
      PlannedIsTraced(steps, chains, best, old(bodies), old(db), newTip, trace.value);
      return if applied.Ok? then Ok(true) else Err(applied.error), trace;
    }

    /** Apply the planned blocks on the meeting point and commit. */
    method Ascend(newTip: Tip, plan: Plan, line: seq<MainHash>, ghost run: BlockRun) returns (r: Result<(), Error>)
      requires Valid() && |plan.blocks| > 0 && newTip.block in chains.side.headers && db.tip == plan.base
      requires PathFrom(chains, newTip.block, plan.base, Headers(plan.blocks))
      requires run == RunOf(steps, Judged(chains, best, plan.oldTip), Beating(chains, best, plan.oldTip),
                            plan.blocks, line,
                            db, committed)
      modifies this
      ensures Valid() && db == committed
      ensures r.Ok? <==> run.Passed(run.count)
      ensures Ends(run, newTip, if r.Ok? then Ok(true) else Err(r.error), db, old(bodies), bodies)
      ensures plan.base == Some(newTip.block) ==>
                && r.Err? && !IsFatal(r.error) && db == old(committed)
                && bodies == old(bodies) - {chains.side.Tree().Root(newTip.block)}
    {
      r := ApplyBlocks(newTip.block, plan.blocks, line, plan.oldTip, run);
      if plan.base == Some(newTip.block) {
        OntoItselfOutcome(steps, chains, newTip.block, plan.blocks, line, run, r, db, committed, old(bodies), bodies);
      }
      if r.Ok? { committed := db; }
    }
  }

  /**
   When the new tip is the meeting point itself, the oldest block to apply is a
   genesis block, which never fits on it.
   */
  lemma OntoItselfFails(c: Chains, top: BlockHash, base: Option<BlockHash>, path: seq<Header>)
    requires c.TreesValid() && top in c.side.headers && |path| > 0 && PathFrom(c, top, base, path)
    ensures base == Some(top) ==> path[|path| - 1].prevSide == None && path[|path| - 1].hash == c.side.Tree().Root(top)
  {
    if base == Some(top) {
      assert OnPath(c, top, path, |path| - 1);
      assert c.side.Tree().Linked(path[|path| - 1].hash);
    }
  }

  /** So a run onto the new tip itself fails there, and discards the body of that genesis block. */
  lemma OntoItselfOutcome(k: Steps, c: Chains, top: BlockHash, blocks: seq<Block>, line: seq<MainHash>, run: BlockRun,
                          r: Result<(), Error>, db: StateDb, committed: StateDb,
                          before: map<BlockHash, Body>, after: map<BlockHash, Body>)
    requires k.Fit() && c.TreesValid() && top in c.side.headers && |blocks| > 0
    requires PathFrom(c, top, Some(top), Headers(blocks)) && run.start.tip == Some(top)
    requires run == RunOf(k, run.judged, run.beats, blocks, line, run.start, run.saved)
    requires Outcome(run, top, r, db, committed, before, after)
    ensures r.Err? && !IsFatal(r.error) && db == committed == run.saved
    ensures after == before - {c.side.Tree().Root(top)}
  {
    OntoItselfFails(c, top, Some(top), Headers(blocks));
    MisfitFails(k, blocks, line, run.start);
    MisfitOutcome(run, top, r, db, committed, before, after);
  }

  /** Does the walk down from `top` come across `stop`? */
  ghost predicate StopsLine(t: Tree<MainHash>, top: MainHash, stop: Option<MainHash>)
    requires t.Valid() && top in t.parent
  {
    stop.Some? && stop.value in t.parent && t.IsAncestor(stop.value, top)
  }

  /** `line` holds the ancestors of `top` above `stop`, newest first. */
  ghost predicate LineAbove(c: Chains, top: MainHash, stop: Option<MainHash>, line: seq<MainHash>)
    requires c.TreesValid()
  {
    if top !in c.main.headers then line == []
    else
      && IsLine(c.main.Tree(), top, line)
      && |line| == c.main.heights[top]
                   - (if StopsLine(c.main.Tree(), top, stop) then c.main.heights[stop.value] else -1)
  }

  // ---- which tips are reached ----

  /** The current tip with its best verification. */
  ghost function TipOf(best: map<BlockHash, MainHash>, s: StateDb): Option<Tip>
    requires s.tip.Some? ==> s.tip.value in best
  {
    match s.tip case None => None case Some(b) => Some(Tip(b, best[b]))
  }

  /** There is a current tip, and the new one does not beat it. */
  ghost predicate Declines(c: Chains, best: map<BlockHash, MainHash>, s: StateDb, newTip: Tip)
    requires Comparable(c)
  {
    && s.tip.Some? && s.tip.value in best
    && Better(c, Tip(s.tip.value, best[s.tip.value]), newTip).Ok?
    && Better(c, Tip(s.tip.value, best[s.tip.value]), newTip) != Ok(Some(newTip))
  }

  /** The new tip beats the current one, or there is none. */
  ghost predicate Wins(c: Chains, best: map<BlockHash, MainHash>, s: StateDb, newTip: Tip)
    requires Comparable(c)
  {
    s.tip.Some? ==> s.tip.value in best && Better(c, Tip(s.tip.value, best[s.tip.value]), newTip) == Ok(Some(newTip))
  }

  /** `base` is stored and not above `top`. */
  ghost predicate BaseBelow(c: Chains, top: BlockHash, base: Option<BlockHash>)
    requires c.TreesValid()
  {
    top in c.side.headers && (base.Some? ==>
                              base.value in c.side.headers && c.side.heights[base.value] <= c.side.heights[top])
  }

  /**
   Number of blocks from `top` down to just above `base`; down to genesis if
   there is no base or it is `top` itself.
   */
  ghost function PathLength(c: Chains, top: BlockHash, base: Option<BlockHash>): nat
    requires c.TreesValid() && BaseBelow(c, top, base)
  {
    if base.None? || base == Some(top) then c.side.heights[top] + 1
       else c.side.heights[top] - c.side.heights[base.value]
  }

  /** The bodies of all these blocks are stored. */
  ghost predicate BodiesStored(c: Chains, bodies: map<BlockHash, Body>, top: BlockHash, base: Option<BlockHash>)
    requires c.TreesValid() && BaseBelow(c, top, base)
  {
    forall i: nat {:trigger c.side.Tree().Up(top, i)} | i < PathLength(c, top, base) ::
      c.side.Tree().Up(top, i).value in bodies
  }

  /** These blocks, newest first. */
  ghost function PlannedBlocks(c: Chains, bodies: map<BlockHash, Body>, top: BlockHash, base: Option<BlockHash>)
    : seq<Block>
    requires c.TreesValid() && BaseBelow(c, top, base) && BodiesStored(c, bodies, top, base)
  {
    seq(PathLength(c, top, base), i requires 0 <= i < PathLength(c, top, base) =>
      Block(c.side.headers[c.side.Tree().Up(top, i).value], bodies[c.side.Tree().Up(top, i).value]))
  }

  /** The mainchain block that `base` was built on. */
  ghost function StopOf(c: Chains, base: Option<BlockHash>): Option<MainHash>
    requires base.Some? ==> base.value in c.side.headers
  {
    match base case None => None case Some(b) => Some(c.side.headers[b].prevMain)
  }

  ghost function LineLength(c: Chains, top: MainHash, stop: Option<MainHash>): nat
    requires c.TreesValid() && top in c.main.headers
  {
    if StopsLine(c.main.Tree(), top, stop) then
      c.main.Tree().AncestorDepth(stop.value, top);
      c.main.heights[top] - c.main.heights[stop.value]
    else c.main.heights[top] + 1
  }

  /** The mainchain blocks from `top` down to just above `stop`, newest first. */
  ghost function PlannedLine(c: Chains, top: MainHash, stop: Option<MainHash>): seq<MainHash>
    requires c.TreesValid()
  {
    if top !in c.main.headers then []
    else seq(LineLength(c, top, stop), i requires 0 <= i < LineLength(c, top, stop) => c.main.Tree().Up(top, i).value)
  }

  /** Their infos are stored; the walk may also begin nowhere, or at `stop`. */
  ghost predicate LineStored(c: Chains, top: MainHash, stop: Option<MainHash>)
    requires c.TreesValid()
  {
    if top in c.main.headers then
      forall i: nat {:trigger c.main.Tree().Up(top, i)} | i < LineLength(c, top, stop) ::
        c.main.Tree().Up(top, i).value in c.infos
    else top == ZERO_HASH || Some(top) == stop
  }

  /** The state after disconnecting down to `base`, if every step succeeds. */
  ghost function Landing(k: Steps, c: Chains, bodies: map<BlockHash, Body>, s: StateDb, base: Option<BlockHash>)
    : Option<StateDb>
    requires c.TreesValid() && (base.Some? ==> base.value in c.side.headers)
  {
    var n := Disconnects(s.height, if base.Some? then Some(c.side.heights[base.value]) else None);
    if n < 0 then None else GoBack(k, c, bodies, s, n)
  }

  /** The new tip wins, meets the current chain at `base`, and all bodies above are stored. */
  ghost predicate Plannable(c: Chains, best: map<BlockHash, MainHash>, bodies: map<BlockHash, Body>, s: StateDb,
                            newTip: Tip, base: Option<BlockHash>)
    requires Usable(c) && TipKnown(c, s)
  {
    && Wins(c, best, s, newTip) && newTip.block in c.side.headers && MeetsAt(c, s.tip, newTip.block, base)
    && BaseBelow(c, newTip.block, base) && BodiesStored(c, bodies, newTip.block, base)
  }

  /** The run of the planned blocks on the meeting point. */
  ghost function PlannedRun(k: Steps, c: Chains, best: map<BlockHash, MainHash>, bodies: map<BlockHash, Body>,
                            s: StateDb, newTip: Tip, base: Option<BlockHash>): BlockRun
    requires Usable(c) && TipKnown(c, s) && Plannable(c, best, bodies, s, newTip, base)
    requires Landing(k, c, bodies, s, base).Some?
  {
    RunOf(k, Judged(c, best, TipOf(best, s)), Beating(c, best, TipOf(best, s)),
          PlannedBlocks(c, bodies, newTip.block, base),
          PlannedLine(c, c.side.headers[newTip.block].prevMain, StopOf(c, base)),
          Landing(k, c, bodies, s, base).value, s)
  }

  /**
   A tip that can be reached through the meeting point `base`: it wins, all
   bodies on its path and all infos on its mainchain line are stored, every
   disconnect and every connect succeeds, and each tip on the way can be judged.
   */
  ghost predicate ReachableVia(k: Steps, c: Chains, best: map<BlockHash, MainHash>, bodies: map<BlockHash, Body>,
                               s: StateDb, newTip: Tip, base: Option<BlockHash>)
    requires Usable(c) && TipKnown(c, s)
  {
    && Plannable(c, best, bodies, s, newTip, base)
    && Landing(k, c, bodies, s, base).Some?
    && LineStored(c, c.side.headers[newTip.block].prevMain, StopOf(c, base))
    && var run := PlannedRun(k, c, best, bodies, s, newTip, base);
    run.Passed(run.count)
  }

  ghost predicate Reachable(k: Steps, c: Chains, best: map<BlockHash, MainHash>, bodies: map<BlockHash, Body>,
                            s: StateDb, newTip: Tip)
    requires Usable(c) && TipKnown(c, s)
  {
    exists base :: ReachableVia(k, c, best, bodies, s, newTip, base)
  }

  lemma MeetsUnique(c: Chains, tip: Option<BlockHash>, top: BlockHash, x: Option<BlockHash>, y: Option<BlockHash>)
    requires c.TreesValid() && top in c.side.headers && (tip.Some? ==> tip.value in c.side.headers)
    requires MeetsAt(c, tip, top, x) && MeetsAt(c, tip, top, y)
    ensures x == y
  {
    if tip.Some? {
      c.side.Tree().CommonIffRoot(tip.value, top);
      if x.Some? && y.Some? {
        c.side.Tree().LastCommonUnique(x.value, y.value, tip.value, top);
      }
    }
  }

  lemma BodyMissing(c: Chains, bodies: map<BlockHash, Body>, top: BlockHash, base: Option<BlockHash>, i: nat)
    requires c.TreesValid() && BaseBelow(c, top, base) && i <= c.side.heights[top]
    requires c.side.Tree().Up(top, i).value !in bodies
    requires base.Some? && base != Some(top) ==>
               && c.side.Tree().IsAncestor(base.value, top) && i <= c.side.heights[top] - c.side.heights[base.value]
               && c.side.Tree().Up(top, i) != base
    ensures !BodiesStored(c, bodies, top, base)
  {
    if base.Some? {
      c.side.Tree().AncestorDepth(base.value, top);
    }
    assert i < PathLength(c, top, base);
  }

  /** The blocks read are the planned ones. */
  lemma PlannedIs(c: Chains, bodies: map<BlockHash, Body>, top: BlockHash, base: Option<BlockHash>, blocks: seq<Block>)
    requires c.TreesValid() && BaseBelow(c, top, base) && PathFrom(c, top, base, Headers(blocks))
             && AllRead(bodies, blocks)
    ensures BodiesStored(c, bodies, top, base) && blocks == PlannedBlocks(c, bodies, top, base)
  {
    var path := Headers(blocks);
    forall i: nat | i < |blocks|
      ensures c.side.Tree().Up(top, i).value in bodies
      ensures blocks[i] == Block(c.side.headers[c.side.Tree().Up(top, i).value], bodies[c.side.Tree().Up(top, i).value])
    {
      assert OnPath(c, top, path, i);
    }
    assert |blocks| == PathLength(c, top, base);
  }

  lemma InfoMissing(c: Chains, top: MainHash, stop: Option<MainHash>, i: nat)
    requires c.TreesValid() && top in c.main.headers && i <= c.main.heights[top]
    requires c.main.Tree().Up(top, i).value !in c.infos
    requires StopsLine(c.main.Tree(), top, stop) ==>
               i <= c.main.heights[top] - c.main.heights[stop.value] && c.main.Tree().Up(top, i) != Some(stop.value)
    ensures !LineStored(c, top, stop)
  {
    if StopsLine(c.main.Tree(), top, stop) {
      c.main.Tree().AncestorDepth(stop.value, top);
    }
    assert i < LineLength(c, top, stop);
  }

  lemma InfosThere(c: Chains, top: MainHash, stop: Option<MainHash>, line: seq<MainHash>)
    requires c.TreesValid() && LineAbove(c, top, stop, line)
    requires forall i | 0 <= i < |line| :: line[i] in c.infos
    requires top !in c.main.headers ==> top == ZERO_HASH || Some(top) == stop
    ensures LineStored(c, top, stop) && line == PlannedLine(c, top, stop)
  {
    if top in c.main.headers {
      var t := c.main.Tree();
      if StopsLine(t, top, stop) {
        t.AncestorDepth(stop.value, top);
      }
      assert |line| == LineLength(c, top, stop);
      forall i: nat | i < |line|
        ensures t.Up(top, i) == Some(line[i])
      {
      }
    }
  }

  /** The run that a trace records. */
  ghost function TracedRun(k: Steps, c: Chains, best: map<BlockHash, MainHash>, before: StateDb, trace: Trace): BlockRun
    requires Comparable(c)
  {
    RunOf(k, Judged(c, best, trace.plan.oldTip), Beating(c, best, trace.plan.oldTip), trace.plan.blocks, trace.line,
          trace.landing, before)
  }

  lemma NotReachable(k: Steps, c: Chains, best: map<BlockHash, MainHash>, bodies: map<BlockHash, Body>, s: StateDb,
                     newTip: Tip, base: Option<BlockHash>)
    requires Usable(c) && TipKnown(c, s) && Plannable(c, best, bodies, s, newTip, base)
    requires !ReachableVia(k, c, best, bodies, s, newTip, base)
    ensures !Reachable(k, c, best, bodies, s, newTip)
  {
    forall other | ReachableVia(k, c, best, bodies, s, newTip, other)
      ensures false
    {
      MeetsUnique(c, s.tip, newTip.block, base, other);
    }
  }

  /** The traced run is the planned one, so it passes exactly if the tip is reachable. */
  lemma PlannedIsTraced(k: Steps, c: Chains, best: map<BlockHash, MainHash>, bodies: map<BlockHash, Body>, s: StateDb,
                        newTip: Tip, trace: Trace)
    requires Usable(c) && TipKnown(c, s) && Plannable(c, best, bodies, s, newTip, trace.plan.base)
    requires PathFrom(c, newTip.block, trace.plan.base, Headers(trace.plan.blocks))
             && AllRead(bodies, trace.plan.blocks)
    requires trace.plan.oldTip == TipOf(best, s) && Landing(k, c, bodies, s, trace.plan.base) == Some(trace.landing)
    requires LineStored(c, c.side.headers[newTip.block].prevMain, StopOf(c, trace.plan.base))
    requires trace.line == PlannedLine(c, c.side.headers[newTip.block].prevMain, StopOf(c, trace.plan.base))
    ensures Reachable(k, c, best, bodies, s, newTip) <==> TracedRun(k, c, best, s, trace).Passed(|trace.plan.blocks|)
  {
    PlannedIs(c, bodies, newTip.block, trace.plan.base, trace.plan.blocks);
    assert PlannedRun(k, c, best, bodies, s, newTip, trace.plan.base) == TracedRun(k, c, best, s, trace);
    if TracedRun(k, c, best, s, trace).Passed(|trace.plan.blocks|) {
      assert ReachableVia(k, c, best, bodies, s, newTip, trace.plan.base);
    } else {
      NotReachable(k, c, best, bodies, s, newTip, trace.plan.base);
    }
  }

  /** The node ends at the new tip, or where its last commit left it, less the body of a block that failed. */
  ghost predicate Ends(run: BlockRun, newTip: Tip, r: Result<bool, Error>, after: StateDb,
                       bodies: map<BlockHash, Body>, left: map<BlockHash, Body>)
  {
    match r
    case Ok(_) => after.tip == Some(newTip.block) && left == bodies && run.Reached(run.count) == Some(after)
    case Err(e) => Stopped(run, e, after, bodies, left)
  }

  /** What every attempted reorganisation did. */
  ghost predicate TraceFits(k: Steps, c: Chains, bodies: map<BlockHash, Body>, before: StateDb, newTip: Tip,
                            trace: Trace)
    requires Usable(c) && TipKnown(c, before)
  {
    && PlanFits(c, before, newTip, trace.plan)
    && trace.landing.tip == trace.plan.base && Landing(k, c, bodies, before, trace.plan.base) == Some(trace.landing)
    && AllRead(bodies, trace.plan.blocks)
  }

  /** The blocks carry the stored bodies. */
  ghost predicate AllRead(bodies: map<BlockHash, Body>, blocks: seq<Block>) {
    forall i | 0 <= i < |blocks| :: blocks[i].header.hash in bodies && blocks[i].body == bodies[blocks[i].header.hash]
  }

  /** If the new tip is validly committed, its path receives consecutive mainchain segments with nothing missing. */
  ghost predicate SegmentsHandedOut(c: Chains, top: BlockHash, base: Option<BlockHash>, blocks: seq<Block>,
                                    line: seq<MainHash>)
    requires c.Sound() && top in c.side.headers && (base.Some? ==> base.value in c.side.headers)
  {
    var targets := Targets(Headers(blocks));
    (exists m :: c.Verifies(top, m)) && OldestBuilt(Headers(blocks)) ==>
      && Consecutive(c.main.Tree(), targets, HandOut(line, targets), BuiltAt(c, base))
      && LeftAfter(line, targets) == []
  }

  lemma SegmentsOfPath(c: Chains, top: BlockHash, base: Option<BlockHash>, path: seq<Header>, line: seq<MainHash>)
    requires Usable(c) && top in c.side.headers && (base.Some? ==> base.value in c.side.headers)
    requires PathAbove(c, top, base, path) && |path| > 0
    requires LineAbove(c, path[0].prevMain,
                       if base.Some? then Some(c.side.headers[base.value].prevMain) else None, line)
    ensures (exists m :: c.Verifies(top, m)) && OldestBuilt(path) ==>
              Consecutive(c.main.Tree(), Targets(path), HandOut(line, Targets(path)), BuiltAt(c, base))
              && LeftAfter(line, Targets(path)) == []
  {
    if OldestBuilt(path) {
      if m :| c.Verifies(top, m) {
        PathClimbs(c, top, m, base, path);
        if base.Some? {
          PathToBase(c, top, m, base.value, path, 0);
        }
        var t := c.main.Tree();
        SegmentsFit(t, path[0].prevMain, line, Targets(path), BuiltAt(c, base));
      }
    }
  }

  function Headers(blocks: seq<Block>): (s: seq<Header>)
    ensures |s| == |blocks| && forall i {:trigger s[i]} | 0 <= i < |s| :: s[i] == blocks[i].header
  {
    seq(|blocks|, i requires 0 <= i < |blocks| => blocks[i].header)
  }

  lemma ExtendPath(c: Chains, top: BlockHash, path: seq<Header>, h: Header)
    requires c.TreesValid() && top in c.side.headers && IsPath(c, top, path)
    requires c.side.Tree().Up(top, |path|) == Some(h.hash) && h.hash in c.side.headers && c.side.headers[h.hash] == h
    ensures IsPath(c, top, path + [h])
  {
    var q := path + [h];
    forall i | 0 <= i < |q|
      ensures OnPath(c, top, q, i)
    {
      assert i < |path| ==> OnPath(c, top, path, i);
    }
  }
}
