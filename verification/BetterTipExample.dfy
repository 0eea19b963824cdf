/** A concrete archive on which the tip preference runs in a circle of three. */
module BetterTipExample {
  import opened Wrappers
  import opened Arith
  import opened ChainTypes
  import opened HeaderTree
  import opened ArchiveDb
  import opened BetterTip
  import opened BetterTipCircles

  // Mainchain: g - m - n is one line, g - o another; work 1, 2, 7 and 4.
  const G := MainHash(1)
  const M := MainHash(2)
  const N := MainHash(3)
  const O := MainHash(4)

  const MAIN := MainTables(
    map[G := MainHeader(G, ZERO_HASH, 0, 1), M := MainHeader(M, G, 1, 1), N := MainHeader(N, M, 2, 5),
        O := MainHeader(O, G, 1, 3)],
    map[G := 0, M := 1, N := 2, O := 1],
    map[G := [], M := [], N := [G], O := []],
    map[ZERO_HASH := {G}, G := {M, O}, M := {N}, N := {}, O := {}],
    map[G := 1, M := 2, N := 7, O := 4])

  // Sidechain: three blocks on one genesis block, committed to by m, n and o.
  const S := BlockHash(1)
  const A := BlockHash(2)
  const B := BlockHash(3)
  const X := BlockHash(4)

  function SideHeader(b: BlockHash, p: Option<BlockHash>, m: MainHash): Header {
    Header(b, 0, p, m, Txid(0))
  }

  const SIDE := SideTables(
    map[S := SideHeader(S, None, ZERO_HASH), A := SideHeader(A, Some(S), G), B := SideHeader(B, Some(S), M),
        X := SideHeader(X, Some(S), G)],
    map[S := 0, A := 1, B := 1, X := 1],
    map[S := [], A := [], B := [], X := []],
    map[None := {S}, Some(S) := {A, B, X}, Some(A) := {}, Some(B) := {}, Some(X) := {}])

  const INFOS: map<MainHash, Option<BlockHash>> := map[G := Some(S), M := Some(A), N := Some(B), O := Some(X)]

  const EXAMPLE := Chains(SIDE, MAIN, INFOS)

  lemma MainShape(t: Tree<MainHash>)
    requires t.parent.Keys == {G, M, N, O} && t.height.Keys == {G, M, N, O}
    requires t.parent[G] == None && t.parent[M] == Some(G) && t.parent[N] == Some(M) && t.parent[O] == Some(G)
    requires t.height[G] == 0 && t.height[M] == 1 && t.height[N] == 2 && t.height[O] == 1
    ensures t.Valid()
    ensures t.Up(M, 1) == Some(G) && t.Up(N, 1) == Some(M) && t.Up(N, 2) == Some(G) && t.Up(O, 1) == Some(G)
  {
    assert t.Linked(G) && t.Linked(M) && t.Linked(N) && t.Linked(O);
    assert t.Valid();
    assert t.Up(G, 0) == Some(G) && t.Up(M, 0) == Some(M);
    assert t.Up(M, 1) == t.Up(G, 0) && t.Up(O, 1) == t.Up(G, 0) && t.Up(N, 1) == t.Up(M, 0);
    assert t.Up(N, 2) == t.Up(M, 1);
  }

  lemma SideShape(t: Tree<BlockHash>)
    requires t.parent.Keys == {S, A, B, X} && t.height.Keys == {S, A, B, X}
    requires t.parent[S] == None && t.parent[A] == t.parent[B] == t.parent[X] == Some(S)
    requires t.height[S] == 0 && t.height[A] == t.height[B] == t.height[X] == 1
    ensures t.Valid()
  {
    assert t.Linked(S) && t.Linked(A) && t.Linked(B) && t.Linked(X);
  }

  lemma MainLines()
    ensures var t := MAIN.Tree();
            && t.Valid()
            && t.Up(M, 1) == Some(G) && t.Up(N, 1) == Some(M) && t.Up(N, 2) == Some(G) && t.Up(O, 1) == Some(G)
  {
    MainShape(MAIN.Tree());
  }

  lemma SideLines()
    ensures SIDE.Tree().Valid()
  {
    SideShape(SIDE.Tree());
  }

  lemma IndexShape(ix: Index<MainHash>)
    requires ix.tree.Valid() && ix.exp.Keys == {G, M, N, O} == ix.tree.parent.Keys
    requires ix.tree.height[G] == 0 && ix.tree.height[M] == 1 && ix.tree.height[N] == 2 && ix.tree.height[O] == 1
    requires ix.exp[G] == ix.exp[M] == ix.exp[O] == [] && ix.exp[N] == [G] && ix.tree.Up(N, 2) == Some(G)
    ensures ix.Valid()
  {
    assert Pow2(0) == 1 && Pow2(1) == 2 && Pow2(2) == 4;
    assert ix.Exact(G) && ix.Exact(M) && ix.Exact(O) && ix.Exact(N);
  }

  lemma IndexLines()
    ensures MAIN.Index().Valid()
  {
    MainLines();
    IndexShape(MAIN.Index());
  }

  lemma SearchShape(t: Tree<MainHash>)
    requires t.height.Keys == {G, M, N, O}
    requires t.height[G] == 0 && t.height[M] == 1 && t.height[N] == 2 && t.height[O] == 1
    ensures Searchable(t)
  {
  }

  lemma MainSearchable()
    ensures Searchable(MAIN.Tree()) && MAIN.totalWork.Keys == MAIN.headers.Keys
  {
    SearchShape(MAIN.Tree());
  }

  lemma ComparableParts(c: Chains)
    requires c.side.Tree().Valid() && c.main.Index().Valid()
    requires Searchable(c.main.Tree()) && c.main.totalWork.Keys == c.main.headers.Keys
    ensures Comparable(c)
  {
  }

  lemma ExampleComparable()
    ensures Comparable(EXAMPLE)
  {
    SideLines();
    IndexLines();
    MainSearchable();
    ComparableParts(EXAMPLE);
  }

  lemma WorkShape(headers: map<MainHash, MainHeader>, work: map<MainHash, nat>)
    requires headers.Keys == {G, M, N, O} == work.Keys
    requires headers[G].prev == ZERO_HASH && headers[M].prev == G == headers[O].prev && headers[N].prev == M
    requires headers[G].work == work[G] == 1 && headers[M].work == 1 && headers[N].work == 5 && headers[O].work == 3
    requires work[M] == 2 && work[N] == 7 && work[O] == 4
    ensures WorkExact(headers, work)
  {
    assert ZERO_HASH !in work;
    assert WorkAdds(headers, work, G) && WorkAdds(headers, work, M) && WorkAdds(headers, work, N)
           && WorkAdds(headers, work, O);
  }

  lemma ExampleWork()
    ensures WorkExact(MAIN.headers, MAIN.totalWork) && ZERO_HASH !in MAIN.headers
  {
    WorkShape(MAIN.headers, MAIN.totalWork);
  }

  lemma LinesShape(t: Tree<MainHash>)
    requires t.Valid() && t.height.Keys == {G, M, N, O}
    requires t.height[G] == 0 && t.height[M] == 1 && t.height[N] == 2 && t.height[O] == 1
    requires t.Up(M, 1) == Some(G) && t.Up(N, 1) == Some(M) && t.Up(N, 2) == Some(G) && t.Up(O, 1) == Some(G)
    ensures OneLine(t, M, N) && !OneLine(t, M, O) && !OneLine(t, O, N)
  {
    t.AncestorDepth(M, N);
    t.AncestorDepth(M, O);
    t.AncestorDepth(O, M);
    t.AncestorDepth(N, O);
    t.AncestorDepth(O, N);
    assert t.Up(O, 0) == Some(O) && t.Up(M, 0) == Some(M);
  }

  lemma ExampleLines()
    ensures var t := MAIN.Tree(); t.Valid() && OneLine(t, M, N) && !OneLine(t, M, O) && !OneLine(t, O, N)
  {
    MainLines();
    LinesShape(MAIN.Tree());
  }

  ghost predicate SideRow(side: SideTables, b: BlockHash, p: Option<BlockHash>, m: MainHash) {
    b in side.headers && side.headers[b].prevSide == p && side.headers[b].prevMain == m
  }

  lemma SideRows()
    ensures SideRow(SIDE, S, None, ZERO_HASH) && SideRow(SIDE, A, Some(S), G)
    ensures SideRow(SIDE, B, Some(S), M) && SideRow(SIDE, X, Some(S), G)
  {
  }

  ghost predicate MainRow(main: MainTables, m: MainHash, p: MainHash) {
    m in main.headers && main.headers[m].prev == p
  }

  lemma MainRows()
    ensures MainRow(MAIN, G, ZERO_HASH) && MainRow(MAIN, M, G) && MainRow(MAIN, N, M) && MainRow(MAIN, O, G)
  {
  }

  ghost predicate Commits(infos: map<MainHash, Option<BlockHash>>, m: MainHash, b: BlockHash) {
    m in infos && infos[m] == Some(b)
  }

  lemma InfoRows()
    ensures Commits(INFOS, G, S) && Commits(INFOS, M, A) && Commits(INFOS, N, B) && Commits(INFOS, O, X)
  {
  }

  lemma VerifiedShape(c: Chains, b: BlockHash, m: MainHash, p: MainHash)
    requires SideRow(c.side, S, None, ZERO_HASH) && SideRow(c.side, b, Some(S), p)
    requires MainRow(c.main, G, ZERO_HASH) && MainRow(c.main, m, p)
    requires c.TreesValid() && c.main.Tree().IsAncestor(G, m)
    requires Commits(c.infos, G, S) && Commits(c.infos, m, b)
    ensures c.Verifies(b, m)
  {
    assert c.side.Tree().Linked(S) && c.side.Tree().Linked(b);
    assert c.Verifies(S, G);
    assert c.CommittedBefore(S, m);
  }

  lemma GenesisFirst(t: Tree<MainHash>)
    requires t.Valid() && t.parent.Keys == {G, M, N, O}
    requires t.Up(M, 1) == Some(G) && t.Up(N, 2) == Some(G) && t.Up(O, 1) == Some(G)
    ensures t.IsAncestor(G, M) && t.IsAncestor(G, N) && t.IsAncestor(G, O)
  {
  }

  lemma VerifiedShapes(c: Chains)
    requires c.TreesValid() && c.side == SIDE && c.main == MAIN && c.infos == INFOS
    ensures c.Verifies(A, M) && c.Verifies(B, N) && c.Verifies(X, O)
  {
    MainLines();
    GenesisFirst(c.main.Tree());
    SideRows();
    MainRows();
    InfoRows();
    VerifiedShape(c, A, M, G);
    VerifiedShape(c, B, N, M);
    VerifiedShape(c, X, O, G);
  }

  /** All three tips are properly committed to. */
  lemma ExampleVerified()
    ensures EXAMPLE.TreesValid()
    ensures EXAMPLE.Verifies(A, M) && EXAMPLE.Verifies(B, N) && EXAMPLE.Verifies(X, O)
  {
    MainLines();
    SideLines();
    VerifiedShapes(EXAMPLE);
  }

  /** Three properly committed tips, each better than the one before, in a circle. */
  lemma ExampleCycles()
    ensures Comparable(EXAMPLE)
    ensures EXAMPLE.Verifies(A, M) && EXAMPLE.Verifies(B, N) && EXAMPLE.Verifies(X, O)
    ensures Circle(EXAMPLE, Tip(A, M), Tip(X, O), Tip(B, N))
  {
    ExampleComparable();
    ExampleVerified();
    ExampleWork();
    ExampleLines();
    CircleExactly(EXAMPLE, Tip(A, M), Tip(X, O), Tip(B, N));
  }
}
