/**
 The block archive: one field per database, updated by header, mainchain and
 body arrivals and by invalidation. Each operation runs in one write
 transaction; an operation that fails leaves every table as it was.
 */
module Archive {
  import opened Wrappers
  import opened Arith
  import opened ChainTypes
  import opened HeaderTree
  import opened ArchiveDb
  import opened ArchiveSteps
  import opened ArchiveBodies
  import opened Invalidation

  /** Does `row` hold a verified mainchain block that is an ancestor of `m`? */
  method AnyVerifiedAncestor(main: MainTables, row: map<MainHash, BmmResult>, m: MainHash) returns (found: bool)
    requires main.Index().Valid() && m in main.headers && row.Keys <= main.headers.Keys
    ensures found <==> exists a :: a in row && row[a] == Verified && main.Tree().IsAncestor(a, m)
  {
    var todo := row.Keys;
    while todo != {}
      invariant todo <= row.Keys
      invariant forall a | a in row && a !in todo :: !(row[a] == Verified && main.Tree().IsAncestor(a, m))
    {
      var a :| a in todo;
      if row[a] == Verified {
        var d := IsDescendant(main.Index(), a, m);
        main.Tree().AncestorSelf(m);
        if d.value {
          return true;
        }
      }
      todo := todo - {a};
    }
    found := false;
  }

  /** The stored row of `p` answers whether `p` is validly committed to before `m`. */
  lemma RowAnswers(c: Chains, d: Chains, bmm: map<BlockHash, map<MainHash, BmmResult>>, p: BlockHash, m: MainHash)
    requires c.Sound() && d.Sound() && Extends(c, d) && BmmExact(c, bmm)
    requires p in c.side.headers && m in d.main.headers
    requires forall x | x in d.infos && x !in c.infos :: d.infos[x] != Some(p)
    ensures (exists a :: a in Held(bmm, p) && Held(bmm, p)[a] == Verified && d.main.Tree().IsAncestor(a, m)) <==>
            d.CommittedBefore(p, m)
  {
    forall a: MainHash
      ensures d.Verifies(p, a) <==> IsVerified(bmm, p, a)
    {
      assert VerdictAgrees(c, bmm, p, a);
      if a in c.infos {
        VerifiesStable(c, d, p, a);
      }
    }
    assert forall a :: IsVerified(bmm, p, a) <==> a in Held(bmm, p) && Held(bmm, p)[a] == Verified;
  }

  /**
   The verdict on header `h` at mainchain block `m`. `d` already stores both,
   while `bmm` still answers for the chains `c` before the arrival.
   */
  method Verdict(ghost c: Chains, d: Chains, bmm: map<BlockHash, map<MainHash, BmmResult>>, h: Header, m: MainHash)
    returns (v: BmmResult)
    requires c.Sound() && d.Sound() && d.main.Index().Valid() && Extends(c, d) && BmmExact(c, bmm)
    requires h.hash in d.side.headers && d.side.headers[h.hash] == h && m in d.infos
    requires h.prevSide.Some? ==> h.prevSide.value in c.side.headers
    requires forall x | x in d.infos && x !in c.infos :: d.infos[x] == Some(h.hash)
    ensures v == if d.Verifies(h.hash, m) then Verified else Failed
  {
    assert d.side.Tree().Linked(h.hash);
    if d.infos[m] != Some(h.hash) || h.prevMain != d.main.headers[m].prev {
      return Failed;
    }
    if h.prevSide.None? {
      return Verified;
    }
    assert h.prevSide.value in bmm ==> RowKnown(c, bmm, h.prevSide.value);
    var found := AnyVerifiedAncestor(d.main, Held(bmm, h.prevSide.value), m);
    RowAnswers(c, d, bmm, h.prevSide.value, m);
    v := if found then Verified else Failed;
  }

  /** The sidechain header tables with `h` added. */
  method LinkSide(side: SideTables, h: Header) returns (r: Result<SideTables, Error>, ghost row: seq<BlockHash>)
    requires side.Valid() && (h.hash in side.headers ==> side.headers[h.hash] == h)
    ensures r.Ok? <==> (h.prevSide.Some? ==> h.prevSide.value in side.heights
                                             && side.heights[h.prevSide.value] + 1 < U32_LIMIT)
    ensures r.Ok? ==> side.Fits(h) && r.value == side.Put(h, row)
                      && side.Tree().CanPut(h.hash, h.prevSide) && RowFits(side.Tree(), h.hash, h.prevSide, row)
  {
    var height := 0;
    row := [];
    if h.prevSide.Some? {
      if h.prevSide.value !in side.heights {
        return Err(InvalidPrevSideHash), row;
      }
      height := side.heights[h.prevSide.value] + 1;
      if height >= U32_LIMIT {
        return Err(HeightOverflow), row;
      }
    }
    SideFitsBecauseValid(side, h);
    var e := BuildExponential(side.Index(), h.prevSide, height);
    SidePutTree(side, h, e);
    row := e;
    r := Ok(SideTables(side.headers[h.hash := h], side.heights[h.hash := height], side.exponential[h.hash := e],
                       AddSuccessor(side.successors, h.prevSide, h.hash, Some(h.hash))));
  }

  /** The mainchain header tables with `i` added. */
  method LinkMain(main: MainTables, i: MainHeader) returns (r: Result<MainTables, Error>, ghost row: seq<MainHash>)
    requires main.Valid() && CanPutMainHeader(main, i)
    ensures r.Ok? <==> AcceptsMainHeader(main, i)
    ensures r.Ok? ==> main.Fits(i) && r.value == main.Put(i, row)
                      && main.Tree().CanPut(i.hash, MainParent(i.prev))
                      && RowFits(main.Tree(), i.hash, MainParent(i.prev), row)
  {
    row := [];
    if i.prev !in main.headers && i.prev != ZERO_HASH {
      return Err(NoMainHeaderInfo(i.prev)), row;
    }
    var height := if i.prev == ZERO_HASH then 0 else main.heights[i.prev] + 1;
    if height >= U32_LIMIT {
      return Err(HeightOverflow), row;
    }
    var work := if i.prev != ZERO_HASH then main.totalWork[i.prev] + i.work else i.work;
    var e := BuildExponential(main.Index(), MainParent(i.prev), height);
    MainPutTree(main, i, e);
    row := e;
    r := Ok(MainTables(main.headers[i.hash := i], main.heights[i.hash := height], main.exponential[i.hash := e],
                       AddSuccessor(main.successors, i.prev, i.hash, i.hash), main.totalWork[i.hash := work]));
  }

  /** Decide a freshly linked header at every mainchain successor of its `prev_main_hash`. */
  method DecideAll(ghost c: Chains, d: Chains, bmm: map<BlockHash, map<MainHash, BmmResult>>, h: Header,
                   at: set<MainHash>)
    returns (r: Result<map<MainHash, BmmResult>, Error>)
    requires c.Sound() && d.Sound() && d.main.Index().Valid() && Extends(c, d) && BmmExact(c, bmm)
    requires h.hash in d.side.headers && d.side.headers[h.hash] == h && d.infos == c.infos
    requires h.prevSide.Some? ==> h.prevSide.value in c.side.headers
    ensures r.Ok? <==> at <= d.infos.Keys
    ensures r.Ok? ==> r.value == VerdictRow(Held(bmm, h.hash), d, h.hash, at)
  {
    var results := Held(bmm, h.hash);
    var todo := at;
    ghost var done: set<MainHash> := {};
    while todo != {}
      invariant todo + done == at && todo !! done && done <= d.infos.Keys
      invariant results == VerdictRow(Held(bmm, h.hash), d, h.hash, done)
    {
      var m :| m in todo;
      if m !in d.infos {
        return Err(NoMainBlockInfo(m));
      }
      var v := Verdict(c, d, bmm, h, m);
      results := results[m := v];
      VerdictRowStep(Held(bmm, h.hash), d, h.hash, done, m);
      todo, done := todo - {m}, done + {m};
    }
    assert done == at;
    r := Ok(results);
  }

  class Archive {
    /** The databases, as seen by the current write transaction. */
    var db: Db

    ghost predicate Valid()
      reads this
    {
      db.Valid()
    }

    constructor ()
      ensures Valid() && db == EMPTY
    {
      db := EMPTY;
      EmptyValid();
    }

    /** The mainchain block with the most total work that verifies `b`. */
    method TryGetBestMainVerification(b: BlockHash) returns (r: Option<MainHash>)
      requires Valid()
      ensures r.None? <==> forall m :: !IsVerified(db.bmm, b, m)
      ensures r.Some? ==> IsVerified(db.bmm, b, r.value) && r.value in db.chains.main.totalWork
      ensures r.Some? ==> forall m | IsVerified(db.bmm, b, m) ::
                m in db.chains.main.totalWork && db.chains.main.totalWork[m] <= db.chains.main.totalWork[r.value]
    {
      r := None;
      if b !in db.bmm {
        return;
      }
      assert RowKnown(db.chains, db.bmm, b);
      var work := db.chains.main.totalWork;
      var todo := db.bmm[b].Keys;
      while todo != {}
        invariant todo <= db.bmm[b].Keys <= work.Keys
        invariant r.None? ==> forall m | IsVerified(db.bmm, b, m) :: m in todo
        invariant r.Some? ==> IsVerified(db.bmm, b, r.value) && r.value in work
        invariant r.Some? ==> forall m | IsVerified(db.bmm, b, m) && m !in todo :: work[m] <= work[r.value]
      {
        var m :| m in todo;
        if db.bmm[b][m] == Verified && (r.None? || work[r.value] <= work[m]) {
          r := Some(m);
        }
        todo := todo - {m};
      }
    }

    /** Store a sidechain header and fill in its verdicts at all mainchain blocks after `prev_main_hash`. */
    method PutHeader(h: Header) returns (r: Result<(), Error>)
      requires Valid() && CanPutHeader(db, h)
      modifies this
      ensures Valid()
      ensures r.Ok? <==> old(AcceptsHeader(db.chains, h))
      ensures r.Err? ==> db == old(db)
      ensures r.Ok? ==> HeaderStored(old(db), h, db)
    {
      var saved := db;
      var linked, row := LinkSide(db.chains.side, h);
      if linked.Err? {
        return Err(linked.error);
      }
      db := db.(chains := db.chains.(side := linked.value));
      if h.prevMain !in db.chains.main.successors {
        db := saved;
        return Err(NoMainBlockHash(h.prevMain));
      }
      HeaderChainsValid(saved.chains, h, row);
      var results := DecideAll(saved.chains, db.chains, db.bmm, h, db.chains.main.successors[h.prevMain]);
      if results.Err? {
        db := saved;
        return Err(results.error);
      }
      db := db.(bmm := db.bmm[h.hash := results.value]);
      HeaderStoredValid(saved, h, row);
      r := Ok(());
    }

    /** Store a mainchain header. */
    method PutMainHeaderInfo(i: MainHeader) returns (r: Result<(), Error>)
      requires Valid() && CanPutMainHeader(db.chains.main, i)
      modifies this
      ensures Valid()
      ensures r.Ok? <==> old(AcceptsMainHeader(db.chains.main, i))
      ensures r.Err? ==> db == old(db)
      ensures r.Ok? ==> MainHeaderStored(old(db), i, db)
    {
      var linked, row := LinkMain(db.chains.main, i);
      if linked.Err? {
        return Err(linked.error);
      }
      MainHeaderStoredValid(db, i, row);
      db := db.(chains := db.chains.(main := linked.value));
      r := Ok(());
    }

    /** Store the info of a mainchain block and decide the verdict on the block it commits to. */
    method PutMainBlockInfo(m: MainHash, commitment: Option<BlockHash>) returns (r: Result<(), Error>)
      requires Valid() && CanPutInfo(db.chains, m, commitment)
      modifies this
      ensures Valid()
      ensures r.Ok? <==> old(AcceptsInfo(db.chains, m))
      ensures r.Err? ==> db == old(db)
      ensures r.Ok? ==> db == WithInfo(old(db), m, commitment)
    {
      var c := db.chains;
      if m !in c.main.headers {
        return Err(NoMainHeaderInfo(m));
      }
      if c.main.headers[m].prev != ZERO_HASH && c.main.headers[m].prev !in c.infos {
        return Err(NoMainBlockInfo(c.main.headers[m].prev));
      }
      InfoChainsValid(c, m, commitment);
      InfoStoredValid(db, m, commitment);
      var d := c.(infos := c.infos[m := commitment]);
      if commitment.Some? && commitment.value in c.side.headers {
        var b := commitment.value;
        assert c.side.Tree().Linked(b);
        var v := Verdict(c, d, db.bmm, c.side.headers[b], m);
        VerdictRowOne(Held(db.bmm, b), d, b, m);
        db := db.(bmm := db.bmm[b := Held(db.bmm, b)[m := v]]);
      }
      db := db.(chains := d);
      r := Ok(());
    }

    /** Store a block body under its already stored header. */
    method PutBody(block: BlockHash, body: seq<Txid>) returns (r: Result<(), Error>)
      requires Valid() && (block in db.bodies ==> db.bodies[block] == body)
      modifies this
      ensures Valid()
      ensures r.Ok? <==> block in old(db).chains.side.headers
      ensures r.Err? ==> db == old(db)
      ensures r.Ok? ==> BodyStored(old(db), block, body, db)
    {
      if block !in db.chains.side.headers {
        return Err(NoHeader(block));
      }
      var index := AddInclusions(db.inclusions, block, body);
      AddedExact(db.bodies, db.inclusions, index, block, body);
      db := db.(bodies := db.bodies[block := body], inclusions := index);
      r := Ok(());
    }

    /** Discard a stored body. */
    method DeleteBody(block: BlockHash, body: seq<Txid>)
      requires Valid() && (block in db.bodies ==> db.bodies[block] == body)
      modifies this
      ensures Valid() && BodyDeleted(old(db), block, db)
    {
      var index := RemoveInclusions(db.inclusions, block, body);
      RemovedExact(db.bodies, db.inclusions, index, block, body);
      db := db.(bodies := db.bodies - {block}, inclusions := index);
    }

    /**
     Invalidate a block and its descendants: take each off the stack, remove its
     rows, mark it invalid and push its successors.
     */
    method InvalidateBlock(block: BlockHash)
      requires Valid()
      modifies this
      ensures Valid() && Invalidated(old(db), block, db)
    {
      ghost var before := db;
      ghost var t := db.chains.side.Tree();
      ghost var gone: set<BlockHash> := {};
      var stack := [block];
      PruneNothing(before);
      while stack != []
        invariant Frontier(t, block, gone, stack) && PartlyInvalidated(before, gone, db)
        decreases t.parent.Keys + {block} - gone
      {
        ghost var b := stack[|stack| - 1];
        assert b in stack && b !in gone;
        stack := InvalidateTop(before, block, gone, stack);
        gone := gone + {b};
      }
      FrontierDone(t, block, gone);
      InvalidatedValid(before, block, db);
    }

    method InvalidateTop(ghost before: Db, ghost block: BlockHash, ghost gone: set<BlockHash>, stack: seq<BlockHash>)
      returns (rest: seq<BlockHash>)
      requires before.chains.side.Tree().Valid()
               && SideRows(before.chains.side.Tree().parent, before.chains.side.successors)
      requires stack != [] && Frontier(before.chains.side.Tree(), block, gone, stack)
      requires PartlyInvalidated(before, gone, db)
      modifies this
      ensures Frontier(before.chains.side.Tree(), block, gone + {stack[|stack| - 1]}, rest)
      ensures PartlyInvalidated(before, gone + {stack[|stack| - 1]}, db)
    {
      var b := stack[|stack| - 1];
      ghost var was := db;
      var pushed := ToSeq(Successors(db.chains.side, b));
      RemainingChildren(before, gone, b);
      RemoveBlock(b);
      PartlyInvalidatedStep(before, gone, was, b, db);
      FrontierStep(before.chains.side.Tree(), block, gone, stack, pushed);
      rest := stack[..|stack| - 1] + pushed;
    }

    /** Delete every row of one block and mark it invalid. */
    method RemoveBlock(b: BlockHash)
      requires InclusionsExact(db.bodies, db.inclusions)
      modifies this
      ensures BlockRemoved(old(db), b, db)
    {
      var side := db.chains.side;
      var index := db.inclusions;
      if b in db.bodies {
        index := RemoveInclusions(index, b, db.bodies[b]);
        RemovedExact(db.bodies, db.inclusions, index, b, db.bodies[b]);
      } else {
        assert db.bodies - {b} == db.bodies;
      }
      db := db.(chains := db.chains.(side := SideTables(side.headers - {b}, side.heights - {b}, side.exponential - {b},
                                                        DropSuccessor(side, b))),
                bodies := db.bodies - {b}, inclusions := index, invalid := db.invalid + {b});
    }
  }
}
