/**
 Runs of blocks: the assumption that stored reservations match their outputs is
 kept by every block, and disconnecting a run restores the state before it.
 */
module StateRuns {
  import opened Wrappers
  import opened ChainTypes
  import opened Transactions
  import opened StateDb
  import opened StateRoundTrip
  import Coins
  import Effects
  import BitAssets

  /** Reservation outputs are spent reservations carried over, or the transaction's own new one. */
  ghost predicate CarriesReservations(f: FilledTransaction, outputs: seq<FilledOutput>) {
    forall i | 0 <= i < |outputs| && outputs[i].content.FilledReservation? :: Carried(f, outputs[i].content)
  }

  ghost predicate Carried(f: FilledTransaction, c: FilledContent)
    requires c.FilledReservation?
  {
    || (exists j :: 0 <= j < |f.spent| && f.spent[j].content == c)
    || (f.tx.data == Some(BitAssetReservation(c.commitment)) && c.txid == f.tx.txid)
  }

  ghost predicate RulesCarry(rules: Rules) {
    forall f | FilledOutputs(rules, f).Some? :: CarriesReservations(f, FilledOutputs(rules, f).value)
  }

  /** An output after a transaction was there before, or the transaction created it. */
  lemma OutputsAfter(rules: Rules, s: StateDb, tx: Transaction, height: nat, o: OutPoint)
    requires ApplyTx(rules, s, tx, height).Ok? && Coins.Unplaced(s.coins, Coins.FromTx(tx.txid))
    requires o in ApplyTx(rules, s, tx, height).value.coins.utxos
    ensures var d := ApplyTx(rules, s, tx, height).value;
            var outputs := FilledOutputs(rules, Coins.Fill(s.coins, tx).value).value;
            || (o in s.coins.utxos && d.coins.utxos[o] == s.coins.utxos[o])
            || (exists v :: 0 <= v < |outputs| && d.coins.utxos[o] == outputs[v])
  {
    ApplyTxParts(rules, s, tx, height);
    ApplyTxCoins(rules, s, tx, height);
    var outputs := FilledOutputs(rules, Coins.Fill(s.coins, tx).value).value;
    var c := Coins.Spend(s.coins, tx, |tx.inputs|).value;
    Coins.CreateIsExact(c, Coins.FromTx(tx.txid), outputs, |outputs|);
    if o !in s.coins.utxos {
      assert o in Coins.Places(Coins.FromTx(tx.txid), |outputs|);
      assert exists v :: 0 <= v < |outputs| && o == Coins.Place(Coins.FromTx(tx.txid), v);
    }
  }

  /** A reservation named by an output after a transaction was named by one before, or is the transaction's own. */
  lemma ReservationsAfter(rules: Rules, s: StateDb, tx: Transaction, height: nat, o: OutPoint)
    requires RulesCarry(rules) && ApplyTx(rules, s, tx, height).Ok? && Coins.Unplaced(s.coins, Coins.FromTx(tx.txid))
    requires o in ApplyTx(rules, s, tx, height).value.coins.utxos
    requires ApplyTx(rules, s, tx, height).value.coins.utxos[o].content.FilledReservation?
    ensures var c := ApplyTx(rules, s, tx, height).value.coins.utxos[o].content;
            || (exists p :: p in s.coins.utxos && s.coins.utxos[p].content == c)
            || (tx.data == Some(BitAssetReservation(c.commitment)) && c.txid == tx.txid)
  {
    OutputsAfter(rules, s, tx, height, o);
    ApplyTxParts(rules, s, tx, height);
    var f := Coins.Fill(s.coins, tx).value;
    var c := ApplyTx(rules, s, tx, height).value.coins.utxos[o].content;
    if !(o in s.coins.utxos && s.coins.utxos[o].content == c) {
      assert CarriesReservations(f, FilledOutputs(rules, f).value);
      assert Carried(f, c);
      if j :| 0 <= j < |f.spent| && f.spent[j].content == c {
        assert tx.inputs[j] in s.coins.utxos && s.coins.utxos[tx.inputs[j]].content == c;
      }
    }
  }

  lemma TxKeepsMatch(rules: Rules, s: StateDb, tx: Transaction, height: nat)
    requires RulesCarry(rules) && ApplyTx(rules, s, tx, height).Ok? && Coins.Unplaced(s.coins, Coins.FromTx(tx.txid))
    requires ReservationsMatch(s.coins.utxos, s.effects) && NoReservationOf(s.coins.utxos, tx.txid)
    ensures ReservationsMatch(ApplyTx(rules, s, tx, height).value.coins.utxos,
                              ApplyTx(rules, s, tx, height).value.effects)
  {
    ApplyTxParts(rules, s, tx, height);
    var f := Coins.Fill(s.coins, tx).value;
    var d := ApplyTx(rules, s, tx, height).value;
    forall o | o in d.coins.utxos && d.coins.utxos[o].content.FilledReservation?
      && d.coins.utxos[o].content.txid in d.effects.assets.reservations
      ensures d.effects.assets.reservations[d.coins.utxos[o].content.txid] == d.coins.utxos[o].content.commitment
    {
      var c := d.coins.utxos[o].content;
      ReservationsAfter(rules, s, tx, height, o);
      if p :| p in s.coins.utxos && s.coins.utxos[p].content == c {
        Effects.ReservationsUseOwnTxid(rules.keyedHash, s.effects, f, height, c.txid);
      }
    }
  }

  lemma TxKeepsNoReservation(rules: Rules, s: StateDb, tx: Transaction, height: nat, txid: Txid)
    requires RulesCarry(rules) && ApplyTx(rules, s, tx, height).Ok? && Coins.Unplaced(s.coins, Coins.FromTx(tx.txid))
    requires NoReservationOf(s.coins.utxos, txid) && txid != tx.txid
    ensures NoReservationOf(ApplyTx(rules, s, tx, height).value.coins.utxos, txid)
  {
    var d := ApplyTx(rules, s, tx, height).value;
    forall o | o in d.coins.utxos && d.coins.utxos[o].content.FilledReservation?
      ensures d.coins.utxos[o].content.txid != txid
    {
      ReservationsAfter(rules, s, tx, height, o);
    }
  }

  /** No unspent output names a reservation of transactions `n` and later, and stored reservations match. */
  ghost predicate Matched(s: StateDb, txs: seq<Transaction>, n: nat) {
    && ReservationsMatch(s.coins.utxos, s.effects)
    && forall i | n <= i < |txs| :: NoReservationOf(s.coins.utxos, txs[i].txid)
  }

  lemma TxMatched(rules: Rules, t: StateDb, d: StateDb, txs: seq<Transaction>, n: nat, height: nat)
    requires RulesCarry(rules) && DistinctIds(txs) && n < |txs| && NewTx(t, txs[n].txid) && Matched(t, txs, n)
    requires StepOk(rules, t, txs[n], height, d)
    ensures Matched(d, txs, n + 1)
  {
    assert NoReservationOf(t.coins.utxos, txs[n].txid);
    TxKeepsMatch(rules, t, txs[n], height);
    forall i | n + 1 <= i < |txs|
      ensures NoReservationOf(d.coins.utxos, txs[i].txid)
    {
      assert Apart(txs, n, i);
      TxKeepsNoReservation(rules, t, txs[n], height, txs[i].txid);
    }
  }

  ghost predicate ReadyAndMatched(base: Base, e: StateDb, txs: seq<Transaction>, n: nat) {
    n <= |txs| && Ready(base, e, txs, n) && SpentFrom(base.utxos, e, txs, n) && Matched(e, txs, n)
  }

  lemma OneMoreMatched(base: Base, rules: Rules, m: StateDb, e: StateDb, txs: seq<Transaction>, n: nat, height: nat)
    requires n < |txs| && Given(base, txs) && RulesCarry(rules) && ReadyAndMatched(base, m, txs, n)
    requires StepOk(rules, m, txs[n], height, e)
    ensures ReadyAndMatched(base, e, txs, n + 1)
  {
    TxReady(base, rules, m, e, txs, n, height);
    assert NewTx(m, txs[n].txid);
    TxMatched(rules, m, e, txs, n, height);
  }

  lemma OneMoreIfMatched(base: Base, rules: Rules, m: StateDb, e: StateDb, txs: seq<Transaction>, n: nat, height: nat)
    requires Given(base, txs) && RulesCarry(rules)
    ensures n < |txs| && ReadyAndMatched(base, m, txs, n) && StepOk(rules, m, txs[n], height, e) ==>
              ReadyAndMatched(base, e, txs, n + 1)
  {
    if n < |txs| && ReadyAndMatched(base, m, txs, n) && StepOk(rules, m, txs[n], height, e) {
      OneMoreMatched(base, rules, m, e, txs, n, height);
    }
  }

  ghost function Matching(base: Base, txs: seq<Transaction>): (StateDb, nat) -> bool {
    (e: StateDb, n: nat) => ReadyAndMatched(base, e, txs, n)
  }

  lemma MatchingKept(base: Base, rules: Rules, m: StateDb, e: StateDb, txs: seq<Transaction>, i: nat, height: nat)
    requires Given(base, txs) && RulesCarry(rules)
    ensures KeptBy(rules, Matching(base, txs), txs, height, m, e, i)
  {
    OneMoreIfMatched(base, rules, m, e, txs, i, height);
  }

  lemma TxsKeepMatch(base: Base, rules: Rules, s: StateDb, d: StateDb, txs: seq<Transaction>, height: nat)
    requires ApplyTxs(rules, s, txs, |txs|, height) == Ok(d) && Given(base, txs) && Ready(base, s, txs, 0)
    requires RulesCarry(rules) && Matched(s, txs, 0)
    ensures Matched(d, txs, |txs|)
  {
    var kept := Matching(base, txs);
    forall m: StateDb, e: StateDb, i: nat {:trigger KeptBy(rules, kept, txs, height, m, e, i)}
      ensures KeptBy(rules, kept, txs, height, m, e, i)
    {
      MatchingKept(base, rules, m, e, txs, i, height);
    }
    TxsInduction(rules, kept, s, d, txs, height);
  }

  /** Coinbase outputs never hold reservations. */
  lemma CoinbaseKeepsMatch(s: StateDb, h: Header, b: Body)
    requires ReservationsMatch(s.coins.utxos, s.effects) && CoinbaseOutputs(b.coinbase, |b.coinbase|).Some?
    ensures var d := WithCoinbase(s, h, CoinbaseOutputs(b.coinbase, |b.coinbase|).value);
            && ReservationsMatch(d.coins.utxos, d.effects)
            && forall t | NoReservationOf(s.coins.utxos, t) :: NoReservationOf(d.coins.utxos, t)
  {
    var outputs := CoinbaseOutputs(b.coinbase, |b.coinbase|).value;
    var origin := Coins.FromCoinbase(h.coinbaseTxid);
    var d := WithCoinbase(s, h, outputs);
    Coins.CreateIsExact(s.coins, origin, outputs, |outputs|);
    forall o | o in d.coins.utxos
      ensures d.coins.utxos[o].content.FilledReservation? ==> o in s.coins.utxos && d.coins.utxos[o] == s.coins.utxos[o]
    {
      if o in Coins.Places(origin, |outputs|) {
        var v :| 0 <= v < |outputs| && o == Coins.Place(origin, v);
        assert CoinbaseOutput(b.coinbase[v]) == Some(outputs[v]);
      }
    }
  }

  /** A connected block leaves every stored reservation matching the outputs that name it. */
  lemma ConnectKeepsMatch(rules: Rules, s: StateDb, h: Header, b: Body)
    requires Valid(s) && BlockFresh(s, h, b) && RegistersNew(s, b) && RulesCarry(rules) && Connect(rules, s, h, b).Ok?
    ensures ReservationsMatch(Connect(rules, s, h, b).value.coins.utxos, Connect(rules, s, h, b).value.effects)
  {
    ConnectParts(rules, s, h, b);
    StartReady(rules, s, h, b);
    CoinbaseKeepsMatch(s, h, b);
    var start := WithCoinbase(s, h, CoinbaseOutputs(b.coinbase, |b.coinbase|).value);
    var t := ApplyTxs(rules, start, b.transactions, |b.transactions|, NextHeight(s)).value;
    TxsKeepMatch(Before(s), rules, start, t, b.transactions, NextHeight(s));
  }

  // ---- runs ----

  function ConnectAll(rules: Rules, s: StateDb, blocks: seq<Block>): Result<StateDb, Error>
    decreases |blocks|
  {
    if blocks == [] then Ok(s)
    else
      var t :- Connect(rules, s, blocks[0].header, blocks[0].body);
      ConnectAll(rules, t, blocks[1..])
  }

  /** Disconnect a run of blocks, last first. */
  function DisconnectAll(rules: Rules, s: StateDb, blocks: seq<Block>): Result<StateDb, Error>
    decreases |blocks|
  {
    if blocks == [] then Ok(s)
    else
      var last := blocks[|blocks| - 1];
      var t :- Disconnect(rules, s, last.header, last.body);
      DisconnectAll(rules, t, blocks[..|blocks| - 1])
  }

  /** Each block of the run is fresh when its turn comes. */
  ghost predicate RunFresh(rules: Rules, s: StateDb, blocks: seq<Block>)
    decreases |blocks|
  {
    blocks == [] ||
    (&& IdsFresh(s, blocks[0].header, blocks[0].body)
     && (Connect(rules, s, blocks[0].header, blocks[0].body).Ok? ==>
           RunFresh(rules, Connect(rules, s, blocks[0].header, blocks[0].body).value, blocks[1..])))
  }

  /** The txids that a block uses are new: the part of freshness that a run does not keep by itself. */
  ghost predicate IdsFresh(s: StateDb, h: Header, b: Body) {
    && DistinctIds(b.transactions) && FreshFrom(s, b.transactions, 0)
    && (forall i | 0 <= i < |b.transactions| :: NoReservationOf(s.coins.utxos, b.transactions[i].txid))
    && Coins.Unplaced(s.coins, Coins.FromCoinbase(h.coinbaseTxid))
  }

  /** The registrations of a run. */
  function RunRegisters(blocks: seq<Block>): BitAssets.Registrations
  {
    if blocks == [] then BitAssets.Nothing else BlockRegisters(blocks[0].body).Plus(RunRegisters(blocks[1..]))
  }

  lemma {:induction false} DisconnectAllSplits(rules: Rules, s: StateDb, first: Block, rest: seq<Block>, t: StateDb)
    requires DisconnectAll(rules, s, rest) == Ok(t)
    ensures DisconnectAll(rules, s, [first] + rest) == Disconnect(rules, t, first.header, first.body)
    decreases |rest|
  {
    var all := [first] + rest;
    if rest == [] {
      assert all[..0] == [];
    } else {
      assert all[..|all| - 1] == [first] + rest[..|rest| - 1];
      var last := rest[|rest| - 1];
      DisconnectAllSplits(rules, Disconnect(rules, s, last.header, last.body).value, first, rest[..|rest| - 1], t);
    }
  }

  lemma DisconnectsFirst(rules: Rules, s: StateDb, blocks: seq<Block>, t: StateDb)
    requires blocks != [] && DisconnectAll(rules, s, blocks[1..]) == Ok(t)
    ensures DisconnectAll(rules, s, blocks) == Disconnect(rules, t, blocks[0].header, blocks[0].body)
  {
    DisconnectAllSplits(rules, s, blocks[0], blocks[1..], t);
    assert blocks == [blocks[0]] + blocks[1..];
  }

  /** One block: connecting keeps what a run needs, and disconnecting undoes it. */
  lemma BlockUndone(rules: Rules, s: StateDb, h: Header, b: Body)
    requires Valid(s) && ReservationsMatch(s.coins.utxos, s.effects) && RulesCarry(rules)
    requires IdsFresh(s, h, b) && RegistersNew(s, b) && Connect(rules, s, h, b).Ok?
    ensures Disconnect(rules, Connect(rules, s, h, b).value, h, b) == Ok(s)
    ensures Valid(Connect(rules, s, h, b).value)
    ensures ReservationsMatch(Connect(rules, s, h, b).value.coins.utxos, Connect(rules, s, h, b).value.effects)
  {
    DisconnectUndoesConnect(rules, s, h, b);
    ConnectKeepsMatch(rules, s, h, b);
  }

  /**
   Connecting a run of blocks with new txids and disconnecting it, last first,
   restores the state, if what it registers is new.
   */
  lemma {:induction false} RunUndone(rules: Rules, s: StateDb, end: StateDb, blocks: seq<Block>)
    requires Valid(s) && ReservationsMatch(s.coins.utxos, s.effects) && RulesCarry(rules)
    requires RunFresh(rules, s, blocks) && ConnectAll(rules, s, blocks) == Ok(end)
    requires BitAssets.RegistrationsFit(s.effects.assets, RunRegisters(blocks))
    ensures DisconnectAll(rules, end, blocks) == Ok(s) && Valid(end)
    decreases |blocks|
  {
    if blocks != [] {
      var t := FirstUndone(rules, s, end, blocks);
      RunUndone(rules, t, end, blocks[1..]);
      DisconnectsFirst(rules, end, blocks, t);
    }
  }

  /** The first block of a run. */
  lemma FirstUndone(rules: Rules, s: StateDb, end: StateDb, blocks: seq<Block>) returns (t: StateDb)
    requires Valid(s) && ReservationsMatch(s.coins.utxos, s.effects) && RulesCarry(rules)
    requires blocks != [] && RunFresh(rules, s, blocks) && ConnectAll(rules, s, blocks) == Ok(end)
    requires BitAssets.RegistrationsFit(s.effects.assets, RunRegisters(blocks))
    ensures Valid(t) && ReservationsMatch(t.coins.utxos, t.effects)
    ensures RunFresh(rules, t, blocks[1..]) && ConnectAll(rules, t, blocks[1..]) == Ok(end)
    ensures BitAssets.RegistrationsFit(t.effects.assets, RunRegisters(blocks[1..]))
    ensures Disconnect(rules, t, blocks[0].header, blocks[0].body) == Ok(s)
  {
    t := Connect(rules, s, blocks[0].header, blocks[0].body).value;
    RestFits(rules, s, t, blocks);
    BlockUndone(rules, s, blocks[0].header, blocks[0].body);
  }

  lemma RestFits(rules: Rules, s: StateDb, t: StateDb, blocks: seq<Block>)
    requires blocks != [] && Valid(s)
    requires Connect(rules, s, blocks[0].header, blocks[0].body) == Ok(t)
    requires BitAssets.RegistrationsFit(s.effects.assets, RunRegisters(blocks))
    ensures RegistersNew(s, blocks[0].body) && BitAssets.RegistrationsFit(t.effects.assets, RunRegisters(blocks[1..]))
  {
    BlockGrows(rules, s, t, blocks[0].header, blocks[0].body);
    BitAssets.FitInParts(s.effects.assets, t.effects.assets, BlockRegisters(blocks[0].body), RunRegisters(blocks[1..]));
  }

  // ---- runs that register what is not new ----

  lemma {:induction false} RunGrows(rules: Rules, t: BitAssets.Tables, r: BitAssets.Registrations, s: StateDb,
                                    end: StateDb, blocks: seq<Block>)
    requires BitAssets.Grown(t, s.effects.assets, r) && ConnectAll(rules, s, blocks) == Ok(end)
    ensures BitAssets.Grown(t, end.effects.assets, r.Plus(RunRegisters(blocks)))
    decreases |blocks|
  {
    if blocks == [] {
      assert r.Plus(BitAssets.Nothing) == r;
    } else {
      var d := FirstGrows(rules, t, r, s, end, blocks);
      RunGrows(rules, t, r.Plus(BlockRegisters(blocks[0].body)), d, end, blocks[1..]);
      r.PlusAssociates(BlockRegisters(blocks[0].body), RunRegisters(blocks[1..]));
    }
  }

  lemma FirstGrows(rules: Rules, t: BitAssets.Tables, r: BitAssets.Registrations, s: StateDb, end: StateDb,
                   blocks: seq<Block>)
    returns (d: StateDb)
    requires BitAssets.Grown(t, s.effects.assets, r) && ConnectAll(rules, s, blocks) == Ok(end) && blocks != []
    ensures BitAssets.Grown(t, d.effects.assets, r.Plus(BlockRegisters(blocks[0].body)))
            && ConnectAll(rules, d, blocks[1..]) == Ok(end)
  {
    d := Connect(rules, s, blocks[0].header, blocks[0].body).value;
    ConnectGrows(rules, t, r, s, blocks[0].header, blocks[0].body);
  }

  lemma {:induction false} RunRegistersSnoc(blocks: seq<Block>)
    requires blocks != []
    ensures RunRegisters(blocks).Count() ==
            RunRegisters(blocks[..|blocks| - 1]).Count() + BlockRegisters(blocks[|blocks| - 1].body).Count()
  {
    if |blocks| > 1 {
      RunRegistersSnoc(blocks[1..]);
      BlockRegisters(blocks[0].body).PlusCount(RunRegisters(blocks[1..]));
      BlockRegisters(blocks[0].body).PlusCount(RunRegisters(blocks[..|blocks| - 1][1..]));
      assert blocks[1..][..|blocks| - 2] == blocks[..|blocks| - 1][1..];
    } else {
      assert blocks[1..] == [] && blocks[..0] == [];
      BlockRegisters(blocks[0].body).PlusCount(BitAssets.Nothing);
    }
  }

  lemma {:induction false} RunShrinks(rules: Rules, end: StateDb, s: StateDb, blocks: seq<Block>)
    requires DisconnectAll(rules, end, blocks) == Ok(s)
    ensures Fewer(s, end, RunRegisters(blocks).Count())
    decreases |blocks|
  {
    if blocks != [] {
      var last := blocks[|blocks| - 1];
      var t := Disconnect(rules, end, last.header, last.body).value;
      DisconnectShrinks(rules, end, t, last.header, last.body);
      RunShrinks(rules, t, s, blocks[..|blocks| - 1]);
      RunRegistersSnoc(blocks);
    }
  }

  /**
   A run with new txids is undone exactly when it registers distinct new assets,
   each at a count at which the next number is free.
   */
  lemma RunRestoredExactly(rules: Rules, s: StateDb, end: StateDb, blocks: seq<Block>)
    requires Valid(s) && ReservationsMatch(s.coins.utxos, s.effects) && RulesCarry(rules)
    requires RunFresh(rules, s, blocks) && ConnectAll(rules, s, blocks) == Ok(end)
    ensures DisconnectAll(rules, end, blocks) == Ok(s) <==>
            BitAssets.RegistrationsFit(s.effects.assets, RunRegisters(blocks))
  {
    if BitAssets.RegistrationsFit(s.effects.assets, RunRegisters(blocks)) {
      RunUndone(rules, s, end, blocks);
    } else if DisconnectAll(rules, end, blocks) == Ok(s) {
      BitAssets.NothingGrown(s.effects.assets);
      RunGrows(rules, s.effects.assets, BitAssets.Nothing, s, end, blocks);
      RunRegisters(blocks).NothingPlus();
      RunShrinks(rules, end, s, blocks);
    }
  }
}
