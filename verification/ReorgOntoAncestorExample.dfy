/** A concrete archive on which an older block of the sidechain beats its tip. */
module ReorgOntoAncestorExample {
  import opened Wrappers
  import opened Arith
  import opened ChainTypes
  import opened HeaderTree
  import opened ArchiveDb
  import opened BetterTip
  import opened Reorg
  import opened ReorgOntoAncestor

  // Mainchain: z - m1 - m2 - m3 is one line, f forks off m1; work 1, 2, 3, 4 and 7.
  const Z := MainHash(1)
  const M1 := MainHash(2)
  const M2 := MainHash(3)
  const M3 := MainHash(4)
  const F := MainHash(5)

  const MAIN := MainTables(
    map[Z := MainHeader(Z, ZERO_HASH, 0, 1), M1 := MainHeader(M1, Z, 1, 1), M2 := MainHeader(M2, M1, 2, 1),
        M3 := MainHeader(M3, M2, 3, 1), F := MainHeader(F, M1, 2, 5)],
    map[Z := 0, M1 := 1, M2 := 2, M3 := 3, F := 2],
    map[Z := [], M1 := [], M2 := [Z], M3 := [M1], F := [Z]],
    map[ZERO_HASH := {Z}, Z := {M1}, M1 := {M2, F}, M2 := {M3}, M3 := {}, F := {}],
    map[Z := 1, M1 := 2, M2 := 3, M3 := 4, F := 7])

  // Sidechain: s - o - t; o is committed to by m2 and again by f.
  const S := BlockHash(1)
  const O := BlockHash(2)
  const T := BlockHash(3)

  const SIDE := SideTables(
    map[S := Header(S, 0, None, Z, Txid(1)), O := Header(O, 0, Some(S), M1, Txid(2)),
        T := Header(T, 0, Some(O), M2, Txid(3))],
    map[S := 0, O := 1, T := 2],
    map[S := [], O := [], T := [S]],
    map[None := {S}, Some(S) := {O}, Some(O) := {T}, Some(T) := {}])

  const INFOS: map<MainHash, Option<BlockHash>> :=
    map[Z := None, M1 := Some(S), M2 := Some(O), M3 := Some(T), F := Some(O)]

  const ARCHIVE := Chains(SIDE, MAIN, INFOS)

  // ---- the mainchain ----

  ghost predicate MainRow(main: MainTables, m: MainHash, p: MainHash, height: nat, work: nat) {
    && m in main.headers && main.headers[m].prev == p && m in main.heights && main.heights[m] == height
    && m in main.totalWork && main.totalWork[m] == work
    && main.headers[m].work == work - (if p in main.totalWork then main.totalWork[p] else 0)
  }

  ghost predicate MainRows(main: MainTables) {
    && main.headers.Keys == main.heights.Keys == main.totalWork.Keys == {Z, M1, M2, M3, F}
    && MainRow(main, Z, ZERO_HASH, 0, 1) && MainRow(main, M1, Z, 1, 2) && MainRow(main, M2, M1, 2, 3)
    && MainRow(main, M3, M2, 3, 4) && MainRow(main, F, M1, 2, 7)
  }

  lemma MainHolds()
    ensures MainRows(MAIN)
  {
  }

  lemma MainShape(main: MainTables)
    requires MainRows(main)
    ensures main.Tree().Valid() && ZERO_HASH !in main.headers && WorkExact(main.headers, main.totalWork)
            && Searchable(main.Tree())
  {
    var t := main.Tree();
    assert t.Linked(Z) && t.Linked(M1) && t.Linked(M2) && t.Linked(M3) && t.Linked(F);
    assert WorkAdds(main.headers, main.totalWork, Z) && WorkAdds(main.headers, main.totalWork, M1);
    assert WorkAdds(main.headers, main.totalWork, M2) && WorkAdds(main.headers, main.totalWork, M3);
    assert WorkAdds(main.headers, main.totalWork, F);
  }

  lemma MainLines(main: MainTables)
    requires MainRows(main)
    ensures main.Tree().Valid()
    ensures var t := main.Tree();
            t.Up(M2, 2) == Some(Z) && t.Up(F, 2) == Some(Z) && t.Up(M3, 2) == Some(M1) && t.Up(M2, 1) == Some(M1)
            && t.Up(F, 1) == Some(M1) && t.Up(M3, 1) == Some(M2)
  {
    MainShape(main);
    var t := main.Tree();
    assert t.Up(Z, 0) == Some(Z) && t.Up(M1, 0) == Some(M1) && t.Up(M2, 0) == Some(M2);
    assert t.Up(M1, 1) == t.Up(Z, 0) && t.Up(M2, 1) == t.Up(M1, 0) && t.Up(F, 1) == t.Up(M1, 0)
           && t.Up(M3, 1) == t.Up(M2, 0);
    assert t.Up(M2, 2) == t.Up(M1, 1) && t.Up(F, 2) == t.Up(M1, 1) && t.Up(M3, 2) == t.Up(M2, 1);
  }

  ghost predicate MainIndexRows(main: MainTables) {
    && main.exponential.Keys == {Z, M1, M2, M3, F} && main.exponential[Z] == main.exponential[M1] == []
    && main.exponential[M2] == main.exponential[F] == [Z] && main.exponential[M3] == [M1]
  }

  lemma MainIndexHolds()
    ensures MainIndexRows(MAIN)
  {
  }

  lemma MainIndexShape(main: MainTables)
    requires MainRows(main) && MainIndexRows(main)
    ensures main.Index().Valid()
  {
    MainLines(main);
    assert Pow2(0) == 1 && Pow2(1) == 2 && Pow2(2) == 4;
    var ix := main.Index();
    assert ix.Exact(Z) && ix.Exact(M1) && ix.Exact(M2) && ix.Exact(M3) && ix.Exact(F);
  }

  // ---- the sidechain ----

  ghost predicate SideRow(side: SideTables, b: BlockHash, p: Option<BlockHash>, m: MainHash, height: nat) {
    && b in side.headers && side.headers[b].hash == b && side.headers[b].prevSide == p && side.headers[b].prevMain == m
    && b in side.heights && side.heights[b] == height
  }

  ghost predicate SideRows(side: SideTables) {
    && side.headers.Keys == side.heights.Keys == side.exponential.Keys == {S, O, T}
    && SideRow(side, S, None, Z, 0) && SideRow(side, O, Some(S), M1, 1) && SideRow(side, T, Some(O), M2, 2)
    && side.exponential[S] == side.exponential[O] == [] && side.exponential[T] == [S]
  }

  lemma SideHolds()
    ensures SideRows(SIDE)
  {
  }

  lemma SideShape(side: SideTables)
    requires SideRows(side)
    ensures side.Tree().Valid() && side.Index().Valid() && Searchable(side.Tree())
    ensures side.Tree().Up(T, 1) == Some(O)
  {
    var t := side.Tree();
    assert t.Linked(S) && t.Linked(O) && t.Linked(T);
    assert t.Up(S, 0) == Some(S) && t.Up(O, 0) == Some(O);
    assert t.Up(O, 1) == t.Up(S, 0) && t.Up(T, 1) == t.Up(O, 0) && t.Up(T, 2) == t.Up(O, 1);
    assert Pow2(0) == 1 && Pow2(1) == 2 && Pow2(2) == 4;
    var ix := side.Index();
    assert ix.Exact(S) && ix.Exact(O) && ix.Exact(T);
  }

  // ---- the commitments ----

  ghost predicate InfoRows(infos: map<MainHash, Option<BlockHash>>) {
    && infos.Keys == {Z, M1, M2, M3, F}
    && infos[M1] == Some(S) && infos[M2] == Some(O) && infos[M3] == Some(T) && infos[F] == Some(O)
  }

  lemma InfoHolds()
    ensures InfoRows(INFOS)
  {
  }

  lemma InfoShape(c: Chains)
    requires MainRows(c.main) && InfoRows(c.infos)
    ensures InfosClosed(c.main.headers, c.infos)
  {
    var h, i := c.main.headers, c.infos;
    assert InfoFollows(h, i, Z) && InfoFollows(h, i, M1) && InfoFollows(h, i, M2) && InfoFollows(h, i, M3)
           && InfoFollows(h, i, F);
  }

  /** A commitment to `b` right after its mainchain block, and one to its parent below. */
  lemma CommitmentVerifies(c: Chains, b: BlockHash, m: MainHash, p: BlockHash, a: MainHash)
    requires c.TreesValid() && b in c.side.headers && m in c.infos && m in c.main.headers && c.infos[m] == Some(b)
    requires c.main.headers[m].prev == c.side.headers[b].prevMain && c.side.headers[b].prevSide == Some(p)
    requires p in c.side.headers && a in c.main.headers && c.Verifies(p, a) && c.main.Tree().IsAncestor(a, m)
    ensures c.Verifies(b, m)
  {
    assert c.side.Tree().Linked(b);
    assert c.CommittedBefore(p, m);
  }

  lemma AllVerified(c: Chains)
    requires MainRows(c.main) && SideRows(c.side) && InfoRows(c.infos) && c.TreesValid()
    ensures c.Verifies(T, M3) && c.Verifies(O, F)
  {
    MainLines(c.main);
    var t := c.main.Tree();
    assert t.IsAncestor(M1, M2) && t.IsAncestor(M1, F) && t.IsAncestor(M2, M3);
    assert c.side.Tree().Linked(S);
    assert c.Verifies(S, M1);
    CommitmentVerifies(c, O, M2, S, M1);
    CommitmentVerifies(c, O, F, S, M1);
    CommitmentVerifies(c, T, M3, O, M2);
  }

  lemma ArchiveShape(c: Chains)
    requires MainRows(c.main) && MainIndexRows(c.main) && SideRows(c.side) && InfoRows(c.infos)
    ensures Usable(c) && WorkExact(c.main.headers, c.main.totalWork)
  {
    MainShape(c.main);
    MainIndexShape(c.main);
    SideShape(c.side);
    InfoShape(c);
  }

  /** The older block's second commitment has work 7, the tip's has 4: the older block wins. */
  lemma OlderWins(c: Chains)
    requires MainRows(c.main) && MainIndexRows(c.main) && SideRows(c.side) && InfoRows(c.infos)
    ensures Usable(c) && Older(c, Tip(T, M3), Tip(O, F), 1)
    ensures Better(c, Tip(T, M3), Tip(O, F)) == Ok(Some(Tip(O, F)))
    ensures MeetsAt(c, Some(T), O, Some(O))
  {
    ArchiveShape(c);
    AllVerified(c);
    SideShape(c.side);
    OlderBlockBeatsTip(c, Tip(T, M3), Tip(O, F), 1);
    OlderBlockIsBase(c, Tip(T, M3), Tip(O, F), 1);
  }

  /** It happens: on this archive the sidechain's middle block beats its tip. */
  lemma ItHappens()
    ensures Usable(ARCHIVE) && Older(ARCHIVE, Tip(T, M3), Tip(O, F), 1)
    ensures Better(ARCHIVE, Tip(T, M3), Tip(O, F)) == Ok(Some(Tip(O, F)))
    ensures MeetsAt(ARCHIVE, Some(T), O, Some(O))
  {
    MainHolds();
    MainIndexHolds();
    SideHolds();
    InfoHolds();
    OlderWins(ARCHIVE);
  }
}
