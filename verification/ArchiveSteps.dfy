/**
 What one arrival does to the archive's tables, and the proof that each arrival
 keeps the archive invariant.
 */
module ArchiveSteps {
  import opened Wrappers
  import opened Arith
  import opened ChainTypes
  import opened HeaderTree
  import opened ArchiveDb

  datatype Error =
    | InvalidPrevSideHash
    | NoHeader(header: BlockHash)
    | NoBody(body: BlockHash)
    | NoHeight(side: BlockHash)
    | NoMainHeight(main: MainHash)
    | NoMainHeaderInfo(mainHeader: MainHash)
    | NoMainBlockHash(unknown: MainHash)
    | NoMainBlockInfo(noInfo: MainHash)
    | HeightOverflow

  // ---- tree tables ----

  lemma SideSuccessors(t: Tree<BlockHash>, succ: map<Option<BlockHash>, set<BlockHash>>, b: BlockHash,
                       p: Option<BlockHash>)
    requires t.Valid() && t.CanPut(b, p) && SideRows(t.parent, succ)
    ensures p in succ && SideRows(t.parent[b := p], AddSuccessor(succ, p, b, Some(b)))
  {
    var s := AddSuccessor(succ, p, b, Some(b));
    forall k | k in s
      ensures SideRow(t.parent[b := p], s, k)
    {
      assert k in succ ==> SideRow(t.parent, succ, k);
      ChildrenAfterPut(t.parent, b, p, k);
      if k !in succ {
        NoChildrenYet(t, b);
      }
    }
  }

  lemma SidePutTree(s: SideTables, h: Header, row: seq<BlockHash>)
    requires s.Tree().Valid() && s.Fits(h)
    ensures s.Tree().CanPut(h.hash, h.prevSide)
    ensures s.Put(h, row).Tree() == s.Tree().Put(h.hash, h.prevSide, s.Tree().HeightFor(h.prevSide))
    ensures s.Put(h, row).Tree().Valid()
  {
    assert SideParents(s.headers[h.hash := h]) == SideParents(s.headers)[h.hash := h.prevSide];
    s.Tree().PutKeeps(h.hash, h.prevSide);
  }

  lemma SidePutValid(s: SideTables, h: Header, row: seq<BlockHash>)
    requires s.Valid() && s.Fits(h) && s.Tree().CanPut(h.hash, h.prevSide)
    requires RowFits(s.Tree(), h.hash, h.prevSide, row)
    ensures s.Put(h, row).Valid()
  {
    SidePutTree(s, h, row);
    SideSuccessors(s.Tree(), s.successors, h.hash, h.prevSide);
    PutIndex(s.Index(), h.hash, h.prevSide, row);
  }

  lemma SideFitsBecauseValid(s: SideTables, h: Header)
    requires s.Valid() && (h.hash in s.headers ==> s.headers[h.hash] == h)
    requires h.prevSide.Some? ==> h.prevSide.value in s.heights && s.heights[h.prevSide.value] + 1 < U32_LIMIT
    ensures s.Fits(h)
  {
    assert h.prevSide.Some? ==> Some(h.prevSide.value) in set b | b in s.Tree().parent :: Some(b);
  }

  lemma MainSuccessorRows(t: Tree<MainHash>, succ: map<MainHash, set<MainHash>>, b: MainHash, prev: MainHash)
    requires t.Valid() && t.CanPut(b, MainParent(prev)) && b != ZERO_HASH && ZERO_HASH !in t.parent
    requires MainRows(t.parent, succ)
    ensures prev in succ && MainRows(t.parent[b := MainParent(prev)], AddSuccessor(succ, prev, b, b))
  {
    var s := AddSuccessor(succ, prev, b, b);
    forall k | k in s
      ensures MainRow(t.parent[b := MainParent(prev)], s, k)
    {
      assert k in succ ==> MainRow(t.parent, succ, k);
      ChildrenAfterPut(t.parent, b, MainParent(prev), MainParent(k));
      if k !in succ {
        NoChildrenYet(t, b);
      }
    }
  }

  lemma MainPutTree(s: MainTables, i: MainHeader, row: seq<MainHash>)
    requires s.Tree().Valid() && s.Fits(i)
    ensures s.Tree().CanPut(i.hash, MainParent(i.prev))
    ensures s.Put(i, row).Tree() == s.Tree().Put(i.hash, MainParent(i.prev), s.Tree().HeightFor(MainParent(i.prev)))
    ensures s.Put(i, row).Tree().Valid()
  {
    assert MainParents(s.headers[i.hash := i]) == MainParents(s.headers)[i.hash := MainParent(i.prev)];
    s.Tree().PutKeeps(i.hash, MainParent(i.prev));
  }

  lemma MainPutWork(s: MainTables, i: MainHeader, row: seq<MainHash>)
    requires s.Tree().Valid() && s.Fits(i) && WorkExact(s.headers, s.totalWork) && ZERO_HASH !in s.headers
    ensures WorkExact(s.Put(i, row).headers, s.Put(i, row).totalWork)
  {
    var d := s.Put(i, row);
    forall m | m in d.headers
      ensures WorkAdds(d.headers, d.totalWork, m)
    {
      assert i.hash in s.headers ==> WorkAdds(s.headers, s.totalWork, i.hash);
      assert m in s.headers ==> WorkAdds(s.headers, s.totalWork, m) && s.Tree().Linked(m);
    }
  }

  lemma MainPutValid(s: MainTables, i: MainHeader, row: seq<MainHash>)
    requires s.Valid() && s.Fits(i) && s.Tree().CanPut(i.hash, MainParent(i.prev))
    requires RowFits(s.Tree(), i.hash, MainParent(i.prev), row)
    ensures s.Put(i, row).Valid()
  {
    MainPutTree(s, i, row);
    MainPutWork(s, i, row);
    MainSuccessorRows(s.Tree(), s.successors, i.hash, i.prev);
    PutIndex(s.Index(), i.hash, MainParent(i.prev), row);
  }

  // ---- verdicts ----

  /** Verdicts of `b` at the given mainchain blocks, on top of those already held. */
  ghost function VerdictRow(held: map<MainHash, BmmResult>, c: Chains, b: BlockHash, at: set<MainHash>)
    : map<MainHash, BmmResult>
    requires c.TreesValid() && b in c.side.headers
  {
    held + map m | m in at :: if c.Verifies(b, m) then Verified else Failed
  }

  lemma VerdictRowStep(held: map<MainHash, BmmResult>, c: Chains, b: BlockHash, at: set<MainHash>, m: MainHash)
    requires c.TreesValid() && b in c.side.headers
    ensures VerdictRow(held, c, b, at + {m}) ==
            VerdictRow(held, c, b, at)[m := if c.Verifies(b, m) then Verified else Failed]
  {
  }

  lemma VerdictRowOne(held: map<MainHash, BmmResult>, c: Chains, b: BlockHash, m: MainHash)
    requires c.TreesValid() && b in c.side.headers
    ensures VerdictRow(held, c, b, {m}) == held[m := if c.Verifies(b, m) then Verified else Failed]
  {
  }

  function Held(bmm: map<BlockHash, map<MainHash, BmmResult>>, b: BlockHash): map<MainHash, BmmResult> {
    if b in bmm then bmm[b] else map[]
  }

  /**
   `d` has gained headers or infos over `c` and the row of `b` is about to be
   refilled at the mainchain blocks `at`; those are all the blocks where an
   old or missing verdict could now be wrong.
   */
  ghost predicate Refills(c: Chains, d: Chains, b: BlockHash, at: set<MainHash>) {
    && c.Sound() && d.Sound() && Extends(c, d)
    && b in d.side.headers && d.side.headers.Keys == c.side.headers.Keys + {b} && at <= d.infos.Keys
    && (forall m | m in d.infos && m !in c.infos :: m in at && d.infos[m] == Some(b))
    && (forall m | m in d.infos && d.infos[m] == Some(b) && d.main.headers[m].prev == d.side.headers[b].prevMain ::
          m in at || b in c.side.headers)
  }

  /** A verdict at a block that had no info, or at a block outside `at`, is unchanged or negative. */
  lemma OldVerdict(c: Chains, d: Chains, bmm: map<BlockHash, map<MainHash, BmmResult>>, b: BlockHash,
                   at: set<MainHash>, s: BlockHash, m: MainHash)
    requires Refills(c, d, b, at) && BmmExact(c, bmm) && s in d.side.headers && (s != b || m !in at)
    requires b !in c.side.headers ==> b !in bmm
    ensures d.Verifies(s, m) <==> IsVerified(bmm, s, m)
  {
    if s in c.side.headers {
      assert VerdictAgrees(c, bmm, s, m);
      if m in c.infos {
        VerifiesStable(c, d, s, m);
      }
    } else {
      assert s == b;
      assert d.side.Tree().Linked(b);
    }
  }

  lemma BmmRowsKnown(c: Chains, d: Chains, bmm: map<BlockHash, map<MainHash, BmmResult>>)
    requires Extends(c, d) && forall b | b in bmm :: RowKnown(c, bmm, b)
    ensures forall b | b in bmm :: RowKnown(d, bmm, b)
  {
    forall b | b in bmm
      ensures RowKnown(d, bmm, b)
    {
      assert RowKnown(c, bmm, b);
    }
  }

  lemma RefilledKnown(c: Chains, d: Chains, bmm: map<BlockHash, map<MainHash, BmmResult>>, b: BlockHash,
                      at: set<MainHash>)
    requires Refills(c, d, b, at) && BmmExact(c, bmm)
    ensures var bmm' := bmm[b := VerdictRow(Held(bmm, b), d, b, at)]; forall s | s in bmm' :: RowKnown(d, bmm', s)
  {
    var bmm' := bmm[b := VerdictRow(Held(bmm, b), d, b, at)];
    forall s | s in bmm'
      ensures RowKnown(d, bmm', s)
    {
      assert s in bmm ==> RowKnown(c, bmm, s);
    }
  }

  lemma RefilledExact(c: Chains, d: Chains, bmm: map<BlockHash, map<MainHash, BmmResult>>, b: BlockHash,
                      at: set<MainHash>)
    requires Refills(c, d, b, at) && BmmExact(c, bmm)
    requires b !in c.side.headers ==> b !in bmm
    ensures BmmExact(d, bmm[b := VerdictRow(Held(bmm, b), d, b, at)])
  {
    var bmm' := bmm[b := VerdictRow(Held(bmm, b), d, b, at)];
    RefilledKnown(c, d, bmm, b, at);
    forall s, m | s in d.side.headers
      ensures VerdictAgrees(d, bmm', s, m)
    {
      if s != b || m !in at {
        OldVerdict(c, d, bmm, b, at, s, m);
      }
    }
  }

  // ---- sidechain header arrival ----

  ghost predicate CanPutHeader(db: Db, h: Header) {
    h.hash !in db.invalid && (h.hash in db.chains.side.headers ==> db.chains.side.headers[h.hash] == h)
  }

  /** The parent is stored, and every mainchain successor of `prev_main_hash` has its info. */
  ghost predicate AcceptsHeader(c: Chains, h: Header) {
    && (h.prevSide.Some? ==> h.prevSide.value in c.side.heights && c.side.heights[h.prevSide.value] + 1 < U32_LIMIT)
    && h.prevMain in c.main.successors
    && c.main.successors[h.prevMain] <= c.infos.Keys
  }

  /** `e` is `db` with `h` stored, its index row and its verdicts filled in, and nothing else changed. */
  ghost predicate HeaderStored(db: Db, h: Header, e: Db) {
    && h.hash in e.chains.side.exponential
    && db.chains.side.Fits(h) && h.prevMain in db.chains.main.successors
    && var d := db.chains.(side := db.chains.side.Put(h, e.chains.side.exponential[h.hash]));
       && d.TreesValid()
       && e == db.(chains := d,
                   bmm := db.bmm[h.hash := VerdictRow(Held(db.bmm, h.hash), d, h.hash,
                                                      db.chains.main.successors[h.prevMain])])
  }

  lemma HeaderChainsValid(c: Chains, h: Header, row: seq<BlockHash>)
    requires c.Valid() && c.side.Fits(h) && c.side.Tree().CanPut(h.hash, h.prevSide)
    requires RowFits(c.side.Tree(), h.hash, h.prevSide, row) && h.prevMain in c.main.successors
    ensures c.(side := c.side.Put(h, row)).Valid() && Extends(c, c.(side := c.side.Put(h, row)))
  {
    SidePutValid(c.side, h, row);
    var d := c.(side := c.side.Put(h, row));
    forall b | b in d.side.headers
      ensures d.Anchored(b)
    {
      assert b in c.side.headers ==> c.Anchored(b);
    }
  }

  /** Storing a header keeps the archive valid: its own verdict row is filled, no other row changes. */
  lemma HeaderRefills(c: Chains, d: Chains, h: Header)
    requires c.Sound() && MainRows(c.main.Tree().parent, c.main.successors) && d.Sound() && Extends(c, d)
    requires d.main == c.main && d.infos == c.infos && d.side.headers == c.side.headers[h.hash := h]
    requires h.prevMain in c.main.successors && c.main.successors[h.prevMain] <= c.infos.Keys
    ensures Refills(c, d, h.hash, c.main.successors[h.prevMain])
  {
    assert MainRow(c.main.Tree().parent, c.main.successors, h.prevMain);
  }

  lemma HeaderVerdictsExact(db: Db, h: Header, row: seq<BlockHash>)
    requires db.Valid() && CanPutHeader(db, h) && db.chains.side.Fits(h) && AcceptsHeader(db.chains, h)
    requires db.chains.side.Tree().CanPut(h.hash, h.prevSide)
    requires RowFits(db.chains.side.Tree(), h.hash, h.prevSide, row)
    ensures var d := db.chains.(side := db.chains.side.Put(h, row));
            && d.Valid()
            && BmmExact(d, db.bmm[h.hash := VerdictRow(Held(db.bmm, h.hash), d, h.hash,
                                                       db.chains.main.successors[h.prevMain])])
  {
    HeaderChainsValid(db.chains, h, row);
    var d := db.chains.(side := db.chains.side.Put(h, row));
    HeaderRefills(db.chains, d, h);
    RefilledExact(db.chains, d, db.bmm, h.hash, db.chains.main.successors[h.prevMain]);
  }

  /** Storing a header keeps the archive valid: its own verdict row is filled, no other row changes. */
  lemma HeaderStoredValid(db: Db, h: Header, row: seq<BlockHash>)
    requires db.Valid() && CanPutHeader(db, h) && db.chains.side.Fits(h) && AcceptsHeader(db.chains, h)
    requires db.chains.side.Tree().CanPut(h.hash, h.prevSide)
    requires RowFits(db.chains.side.Tree(), h.hash, h.prevSide, row)
    ensures var d := db.chains.(side := db.chains.side.Put(h, row));
            && d.TreesValid()
            && db.(chains := d,
                   bmm := db.bmm[h.hash := VerdictRow(Held(db.bmm, h.hash), d, h.hash,
                                                      db.chains.main.successors[h.prevMain])]).Valid()
  {
    HeaderVerdictsExact(db, h, row);
  }

  // ---- mainchain header arrival ----

  ghost predicate AcceptsMainHeader(s: MainTables, i: MainHeader) {
    i.prev == ZERO_HASH || (i.prev in s.headers && i.prev in s.heights && s.heights[i.prev] + 1 < U32_LIMIT)
  }

  ghost predicate CanPutMainHeader(s: MainTables, i: MainHeader) {
    i.hash != ZERO_HASH && (i.hash in s.headers ==> s.headers[i.hash] == i)
  }

  /** `e` is `db` with mainchain header `i` stored and nothing else changed. */
  ghost predicate MainHeaderStored(db: Db, i: MainHeader, e: Db) {
    && i.hash in e.chains.main.exponential && db.chains.main.Fits(i)
    && e == db.(chains := db.chains.(main := db.chains.main.Put(i, e.chains.main.exponential[i.hash])))
  }

  lemma MainChainsValid(c: Chains, i: MainHeader, row: seq<MainHash>)
    requires c.Valid() && c.main.Fits(i) && c.main.Tree().CanPut(i.hash, MainParent(i.prev))
    requires RowFits(c.main.Tree(), i.hash, MainParent(i.prev), row)
    ensures c.(main := c.main.Put(i, row)).Valid() && Extends(c, c.(main := c.main.Put(i, row)))
  {
    MainPutValid(c.main, i, row);
    var d := c.(main := c.main.Put(i, row));
    forall m | m in d.infos
      ensures InfoFollows(d.main.headers, d.infos, m)
    {
      assert InfoFollows(c.main.headers, c.infos, m);
    }
    forall b | b in d.side.headers
      ensures d.Anchored(b)
    {
      assert c.Anchored(b);
    }
  }

  /** A mainchain header alone changes no verdict. */
  lemma MainHeaderStoredValid(db: Db, i: MainHeader, row: seq<MainHash>)
    requires db.Valid() && db.chains.main.Fits(i) && db.chains.main.Tree().CanPut(i.hash, MainParent(i.prev))
    requires RowFits(db.chains.main.Tree(), i.hash, MainParent(i.prev), row)
    ensures db.(chains := db.chains.(main := db.chains.main.Put(i, row))).Valid()
  {
    MainChainsValid(db.chains, i, row);
    var d := db.chains.(main := db.chains.main.Put(i, row));
    BmmRowsKnown(db.chains, d, db.bmm);
    forall s, m | s in d.side.headers
      ensures VerdictAgrees(d, db.bmm, s, m)
    {
      assert VerdictAgrees(db.chains, db.bmm, s, m);
      if m in d.infos {
        VerifiesStable(db.chains, d, s, m);
      }
    }
  }

  // ---- mainchain block info arrival ----

  ghost predicate AcceptsInfo(c: Chains, m: MainHash) {
    && m in c.main.headers
    && (c.main.headers[m].prev == ZERO_HASH || c.main.headers[m].prev in c.infos)
  }

  ghost predicate CanPutInfo(c: Chains, m: MainHash, commitment: Option<BlockHash>) {
    m in c.infos ==> c.infos[m] == commitment
  }

  /** `db` with the info of `m` stored: only the row of the block it commits to can change. */
  ghost function WithInfo(db: Db, m: MainHash, commitment: Option<BlockHash>): Db
    requires db.Valid()
  {
    var d := db.chains.(infos := db.chains.infos[m := commitment]);
    if commitment.Some? && commitment.value in d.side.headers
    then db.(chains := d,
             bmm := db.bmm[commitment.value := VerdictRow(Held(db.bmm, commitment.value), d, commitment.value, {m})])
    else db.(chains := d)
  }

  lemma InfoChainsValid(c: Chains, m: MainHash, commitment: Option<BlockHash>)
    requires c.Valid() && CanPutInfo(c, m, commitment) && AcceptsInfo(c, m)
    ensures c.(infos := c.infos[m := commitment]).Valid() && Extends(c, c.(infos := c.infos[m := commitment]))
  {
    var d := c.(infos := c.infos[m := commitment]);
    forall x | x in d.infos
      ensures InfoFollows(d.main.headers, d.infos, x)
    {
      assert x in c.infos ==> InfoFollows(c.main.headers, c.infos, x);
    }
    forall b | b in d.side.headers
      ensures d.Anchored(b)
    {
      assert c.Anchored(b);
    }
  }

  /** The verdict computed on arrival of an info is the recursive one, and no older verdict changes. */
  lemma InfoStoredValid(db: Db, m: MainHash, commitment: Option<BlockHash>)
    requires db.Valid() && CanPutInfo(db.chains, m, commitment) && AcceptsInfo(db.chains, m)
    ensures WithInfo(db, m, commitment).Valid()
  {
    InfoChainsValid(db.chains, m, commitment);
    var d := db.chains.(infos := db.chains.infos[m := commitment]);
    if commitment.Some? && commitment.value in d.side.headers {
      assert Refills(db.chains, d, commitment.value, {m});
      RefilledExact(db.chains, d, db.bmm, commitment.value, {m});
    } else {
      BmmRowsKnown(db.chains, d, db.bmm);
      forall s, x | s in d.side.headers
        ensures VerdictAgrees(d, db.bmm, s, x)
      {
        assert VerdictAgrees(db.chains, db.bmm, s, x);
        if x in db.chains.infos {
          VerifiesStable(db.chains, d, s, x);
        }
      }
    }
  }
}
