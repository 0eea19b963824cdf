/** A tracked tip that cannot be moved back: its commitment was passed over because the body was not there yet. */
module MainchainUndoExample {
  import opened Wrappers
  import opened ChainTypes
  import opened ArchiveDb
  import opened BetterTip
  import opened MainchainSync
  import opened MainchainUndo
  import opened BetterTipExample
  import Side = SideTips

  /** The archive of the example, without bodies. */
  const ENV := Env(EXAMPLE, map[], {})

  const NOTHING := Side.SideTips(None, 0, map[], map[])

  lemma ClosedShape(headers: map<MainHash, MainHeader>, infos: map<MainHash, Option<BlockHash>>)
    requires headers.Keys == infos.Keys == {G, M, N, O}
    requires headers[G].prev == ZERO_HASH && headers[M].prev == G == headers[O].prev && headers[N].prev == M
    ensures InfosClosed(headers, infos)
  {
    assert InfoFollows(headers, infos, G) && InfoFollows(headers, infos, M) && InfoFollows(headers, infos, N);
    assert InfoFollows(headers, infos, O);
  }

  lemma MainHeights()
    ensures forall m | m in MAIN.headers :: MainRowAgrees(MAIN, m)
  {
  }

  ghost predicate MainRowAgrees(main: MainTables, m: MainHash) {
    m in main.headers && main.headers[m].hash == m && m in main.heights && main.headers[m].height == main.heights[m]
  }

  lemma SideHashes()
    ensures forall b | b in SIDE.headers :: SIDE.headers[b].hash == b
  {
  }

  lemma EnvValid()
    ensures ENV.Valid()
  {
    ExampleComparable();
    ExampleWork();
    MainHeights();
    SideHashes();
    InfosAreClosed();
    EnvParts(ENV);
  }

  lemma InfosAreClosed()
    ensures InfosClosed(MAIN.headers, INFOS)
  {
    ClosedShape(MAIN.headers, INFOS);
  }

  lemma EnvParts(env: Env)
    requires Comparable(env.c) && WorkExact(env.c.main.headers, env.c.main.totalWork)
             && ZERO_HASH !in env.c.main.headers
    requires forall m | m in env.c.main.headers :: MainRowAgrees(env.c.main, m)
    requires (forall b | b in env.c.side.headers :: env.c.side.headers[b].hash == b)
             && InfosClosed(env.c.main.headers, env.c.infos)
    ensures env.Valid()
  {
    forall m | m in env.c.main.headers
      ensures env.c.main.headers[m].hash == m && env.c.main.headers[m].height == env.c.main.heights[m]
    {
      assert MainRowAgrees(env.c.main, m);
    }
  }

  /** The mainchain's genesis block commits to `S`, whose body is missing: it connects, and cannot be disconnected. */
  lemma GenesisIsStuck()
    ensures ENV.Valid() && ENV.Tracks(NOTHING) && ENV.Up(NOTHING, G).Ok?
    ensures ENV.Down(ENV.Up(NOTHING, G).value) == Err(SideTipsError(Side.MissingSidechainTip(S)))
  {
    EnvValid();
    InfoRows();
    BetterTipExample.MainRows();
    PassedOverIsStuck(ENV, NOTHING, G);
  }
}
