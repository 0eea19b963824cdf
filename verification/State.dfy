/**
 The state: connecting blocks one transaction at a time or as a sorted batch,
 and disconnecting them. A failed operation leaves the state as it was.
 */
module State {
  import opened Wrappers
  import opened Arith
  import opened ChainTypes
  import opened Transactions
  import opened StateDb
  import opened OutPointOrder
  import Tables = StateDb
  import Batching = StateBatch
  import Coins
  import Effects
  import Amm
  import DutchAuction
  import BitAssets
  import opened BitAssetDbs

  // ---- a failure midway is the failure of the whole ----

  lemma {:induction false} FillStops(utxos: map<OutPoint, FilledOutput>, inputs: seq<OutPoint>, n: nat, m: nat)
    requires n <= m <= |inputs| && Coins.FillFrom(utxos, inputs, n).Err?
    ensures Coins.FillFrom(utxos, inputs, m) == Coins.FillFrom(utxos, inputs, n)
    decreases m
  {
    if n < m {
      FillStops(utxos, inputs, n, m - 1);
    }
  }

  lemma {:induction false} FillSpentStops(stxos: map<OutPoint, SpentOutput>, tx: Transaction, n: nat, m: nat)
    requires m <= n <= |tx.inputs| && Coins.FillSpentFrom(stxos, tx, n).Err?
    ensures Coins.FillSpentFrom(stxos, tx, m) == Coins.FillSpentFrom(stxos, tx, n)
    decreases n - m
  {
    if m < n {
      FillSpentStops(stxos, tx, n, m + 1);
    }
  }

  lemma {:induction false} SpendStops(c: Coins.Coins, tx: Transaction, n: nat, m: nat)
    requires n <= m <= |tx.inputs| && Coins.Spend(c, tx, n).Err?
    ensures Coins.Spend(c, tx, m) == Coins.Spend(c, tx, n)
    decreases m
  {
    if n < m {
      SpendStops(c, tx, n, m - 1);
    }
  }

  lemma {:induction false} FillAllStops(c: Coins.Coins, txs: seq<Transaction>, n: nat, m: nat)
    requires n <= m <= |txs| && FillAll(c, txs, n).Err?
    ensures FillAll(c, txs, m) == FillAll(c, txs, n)
    decreases m
  {
    if n < m {
      FillAllStops(c, txs, n, m - 1);
    }
  }

  lemma {:induction false} FillAllSpentStops(c: Coins.Coins, txs: seq<Transaction>, n: nat, m: nat)
    requires n <= m <= |txs| && FillAllSpent(c, txs, n).Err?
    ensures FillAllSpent(c, txs, m) == FillAllSpent(c, txs, n)
    decreases m
  {
    if n < m {
      FillAllSpentStops(c, txs, n, m - 1);
    }
  }

  lemma {:induction false} ApplyStops(rules: Rules, s: StateDb, txs: seq<Transaction>, n: nat, m: nat, height: nat)
    requires n <= m <= |txs| && ApplyTxs(rules, s, txs, n, height).Err?
    ensures ApplyTxs(rules, s, txs, m, height) == ApplyTxs(rules, s, txs, n, height)
    decreases m
  {
    if n < m {
      ApplyStops(rules, s, txs, n, m - 1, height);
    }
  }

  /** One more transaction: its error is the block's error, its state the next prefix's. */
  lemma ApplyNext(rules: Rules, s: StateDb, d: StateDb, txs: seq<Transaction>, n: nat, height: nat)
    requires n < |txs| && ApplyTxs(rules, s, txs, n, height) == Ok(d)
    ensures ApplyTx(rules, d, txs[n], height).Ok? ==>
            ApplyTxs(rules, s, txs, n + 1, height) == ApplyTx(rules, d, txs[n], height)
    ensures ApplyTx(rules, d, txs[n], height).Err? ==>
            ApplyTxs(rules, s, txs, |txs|, height) == ApplyTx(rules, d, txs[n], height)
  {
    if ApplyTx(rules, d, txs[n], height).Err? {
      ApplyStops(rules, s, txs, n + 1, |txs|, height);
    }
  }

  lemma {:induction false} CreatePrefix(c: Coins.Coins, origin: Coins.Origin, outputs: seq<FilledOutput>,
                                        more: seq<FilledOutput>, n: nat)
    requires n <= |outputs| && n <= |more| && outputs[..n] == more[..n]
    ensures Coins.Create(c, origin, outputs, n) == Coins.Create(c, origin, more, n)
  {
    if n > 0 {
      assert outputs[n - 1] == outputs[..n][n - 1] == more[..n][n - 1] == more[n - 1];
      assert outputs[..n - 1] == outputs[..n][..n - 1] == more[..n][..n - 1] == more[..n - 1];
      CreatePrefix(c, origin, outputs, more, n - 1);
    }
  }

  lemma {:induction false} ValueStops(outputs: seq<Output>, n: nat, m: nat)
    requires n <= m <= |outputs| && Batching.CoinbaseValue(outputs, n).Err?
    ensures Batching.CoinbaseValue(outputs, m) == Batching.CoinbaseValue(outputs, n)
    decreases m
  {
    if n < m {
      ValueStops(outputs, n, m - 1);
    }
  }

  lemma {:induction false} FeesStop(rules: Rules, s: StateDb, filled: seq<FilledTransaction>, n: nat, m: nat)
    requires n <= m <= |filled| && Batching.TotalFees(rules, s, filled, n).Err?
    ensures Batching.TotalFees(rules, s, filled, m) == Batching.TotalFees(rules, s, filled, n)
    decreases m
  {
    if n < m {
      FeesStop(rules, s, filled, n, m - 1);
    }
  }

  lemma {:induction false} GatherStops(rules: Rules, g: Batching.Gathered, filled: seq<FilledTransaction>, n: nat,
                                       m: nat, height: nat)
    requires n <= m <= |filled| && Batching.WellFilled(filled) && Batching.GatherTxs(rules, g, filled, n, height).Err?
    ensures Batching.GatherTxs(rules, g, filled, m, height) == Batching.GatherTxs(rules, g, filled, n, height)
    decreases m
  {
    if n < m {
      GatherStops(rules, g, filled, n, m - 1, height);
    }
  }

  /** An error of the asset tables is an error of the state. */
  function InAssets(r: Result<(), BitAssets.Error>): Result<(), Error> {
    match r case Ok(_) => Ok(()) case Err(e) => Err(EffectError(Effects.AssetError(e)))
  }

  /** What gathering yields: the collected rows and the effects in place, or the same error. */
  ghost predicate Gathering(g: Result<Batching.Gathered, Error>, r: Result<Batching.Batch, Error>, e: Effects.Effects) {
    match r case Ok(a) => g == Ok(Batching.Gathered(a, e)) case Err(x) => g == Err(x)
  }

  class State {
    const rules: Rules
    var tip: Option<BlockHash>
    var height: Option<nat>
    var coins: Coins.Coins
    var pools: Effects.Pools
    var auctions: Effects.Auctions
    const bitassets: Dbs

    /** All tables, as one value. */
    function Db(): StateDb
      reads this, bitassets
    {
      StateDb(tip, height, coins, Effects.Effects(pools, auctions, bitassets.Value()))
    }

    constructor (rules: Rules)
      ensures this.rules == rules && fresh(bitassets)
      ensures Db() == EMPTY_STATE
    {
      this.rules := rules;
      tip, height, coins, pools, auctions := None, None, Coins.Coins(map[], map[]), map[], map[];
      bitassets := new Dbs();
    }

    // ---- filling ----

    method FillTransaction(tx: Transaction) returns (r: Result<FilledTransaction, Error>)
      ensures r == LiftCoins(Coins.Fill(coins, tx))
    {
      var spent: seq<FilledOutput> := [];
      var n := 0;
      while n < |tx.inputs|
        invariant n <= |tx.inputs| && Coins.FillFrom(coins.utxos, tx.inputs, n) == Ok(spent)
      {
        if tx.inputs[n] !in coins.utxos {
          FillStops(coins.utxos, tx.inputs, n + 1, |tx.inputs|);
          return Err(CoinError(Coins.NoUtxo(tx.inputs[n])));
        }
        spent := spent + [coins.utxos[tx.inputs[n]]];
        n := n + 1;
      }
      return Ok(FilledTransaction(tx, spent));
    }

    /** Fill an applied transaction, from its last input backwards. */
    method FillTransactionFromStxos(tx: Transaction) returns (r: Result<FilledTransaction, Error>)
      ensures r == LiftCoins(Coins.FillSpent(coins, tx))
    {
      var stxos := coins.stxos;
      var spent: seq<FilledOutput> := [];
      var n: nat := |tx.inputs|;
      while n > 0
        invariant n <= |tx.inputs| && Coins.FillSpentFrom(stxos, tx, n) == Ok(spent)
      {
        n := n - 1;
        var o := tx.inputs[n];
        if o !in stxos {
          FillSpentStops(stxos, tx, n, 0);
          return Err(CoinError(Coins.NoStxo(o)));
        }
        if stxos[o].inpoint != RegularIn(tx.txid, n) {
          FillSpentStops(stxos, tx, n, 0);
          return Err(Panic);
        }
        spent := [stxos[o].output] + spent;
      }
      return Ok(FilledTransaction(tx, spent));
    }

    method FillTransactions(txs: seq<Transaction>) returns (r: Result<seq<FilledTransaction>, Error>)
      ensures r == FillAll(coins, txs, |txs|)
    {
      var filled: seq<FilledTransaction> := [];
      var n := 0;
      while n < |txs|
        invariant n <= |txs| && FillAll(coins, txs, n) == Ok(filled)
      {
        var f := FillTransaction(txs[n]);
        if f.Err? {
          FillAllStops(coins, txs, n + 1, |txs|);
          return Err(f.error);
        }
        filled := filled + [f.value];
        n := n + 1;
      }
      return Ok(filled);
    }

    method FillTransactionsFromStxos(txs: seq<Transaction>) returns (r: Result<seq<FilledTransaction>, Error>)
      ensures r == FillAllSpent(coins, txs, |txs|)
    {
      var filled: seq<FilledTransaction> := [];
      var n := 0;
      while n < |txs|
        invariant n <= |txs| && FillAllSpent(coins, txs, n) == Ok(filled)
      {
        var f := FillTransactionFromStxos(txs[n]);
        if f.Err? {
          FillAllSpentStops(coins, txs, n + 1, |txs|);
          return Err(f.error);
        }
        filled := filled + [f.value];
        n := n + 1;
      }
      return Ok(filled);
    }

    // ---- effects ----

    method StorePools(changed: Result<Effects.Pools, Amm.Error>) returns (r: Result<(), Error>)
      modifies `pools
      ensures r.Ok? ==> changed == Ok(pools)
      ensures r.Err? ==> changed.Err? && r.error == EffectError(Effects.AmmError(changed.error))
    {
      if changed.Err? { return Err(EffectError(Effects.AmmError(changed.error))); }
      pools := changed.value;
      return Ok(());
    }

    method StoreAuctions(changed: Result<Effects.Auctions, DutchAuction.Error>) returns (r: Result<(), Error>)
      modifies `auctions
      ensures r.Ok? ==> changed == Ok(auctions)
      ensures r.Err? ==> changed.Err? && r.error == EffectError(Effects.AuctionError(changed.error))
    {
      if changed.Err? { return Err(EffectError(Effects.AuctionError(changed.error))); }
      auctions := changed.value;
      return Ok(());
    }

    method ApplyEffect(f: FilledTransaction, height: nat) returns (r: Result<(), Error>)
      modifies `pools, `auctions, bitassets
      ensures r.Ok? ==> Effects.Apply(rules.keyedHash, old(Db()).effects, f, height) == Ok(Db().effects)
      ensures r.Err? ==> LiftEffect(Effects.Apply(rules.keyedHash, old(Db()).effects, f, height)) == Err(r.error)
    {
      if f.tx.data.None? { return Ok(()); }
      match f.tx.data.value
      case AmmBurn(amount0, amount1, burn) =>
        var tokens := f.FirstLpToken();
        if tokens.None? { return Err(EffectError(Effects.AmmError(Amm.InvalidBurn))); }
        r := StorePools(Effects.ApplyBurn(pools, tokens.value.0, tokens.value.1, burn, amount0, amount1));
      case AmmMint(amount0, amount1, minted) =>
        var assets := f.UniqueSpentAssets();
        if |assets| < 2 { return Err(EffectError(Effects.AmmError(Amm.InvalidMint))); }
        r := StorePools(Effects.ApplyMint(pools, f.tx.txid, assets[0], assets[1], amount0, amount1, minted));
      case AmmSwap(spent, received, pairAsset) =>
        var asset := f.FirstSpentAsset();
        if asset.None? { return Err(EffectError(Effects.AmmError(Amm.InvalidSwap))); }
        r := StorePools(Effects.ApplySwap(pools, asset.value, pairAsset, spent, received));
      case BitAssetReservation(commitment) =>
        bitassets.PutReservation(f.tx.txid, commitment);
        r := Ok(());
      case BitAssetRegistration(name, nonce, initial, supply) =>
        var changed := bitassets.ApplyRegistration(
          BitAssetId(name), f.SpentReservations(), rules.keyedHash(nonce, name), initial, supply, f.tx.txid, height);
        r := InAssets(changed);
      case BitAssetMint(amount) =>
        var asset := f.LastControl();
        if asset.None? { return Err(EffectError(Effects.AssetError(BitAssets.NoBitAssetsToMint))); }
        var changed := bitassets.ApplyMint(asset.value, amount, f.tx.txid, height);
        r := InAssets(changed);
      case BitAssetUpdate(updates) =>
        var asset := f.LastBitAsset();
        if asset.None? { return Err(EffectError(Effects.AssetError(BitAssets.NoBitAssetsToUpdate))); }
        var changed := bitassets.ApplyUpdates(asset.value, updates, f.tx.txid, height);
        r := InAssets(changed);
      case DutchAuctionBid(id, receive, quantity, size) =>
        var asset := f.FirstSpentAsset();
        if asset.None? { return Err(EffectError(Effects.AuctionError(DutchAuction.InvalidTxData))); }
        r := StoreAuctions(Effects.ApplyBid(auctions, id, asset.value, receive, size, quantity, f.tx.txid, height));
      case DutchAuctionCreate(params) =>
        r := StoreAuctions(Effects.ApplyCreate(auctions, params, f.tx.txid, height));
      case DutchAuctionCollect(offered, receive, remaining, received) =>
        var auction := f.FirstReceipt();
        if auction.None? { return Err(EffectError(Effects.AuctionError(DutchAuction.InvalidTxData))); }
        r := StoreAuctions(
          Effects.ApplyCollect(auctions, auction.value, offered, receive, remaining, received, f.tx.txid, height));
    }

    method RevertEffect(f: FilledTransaction, height: nat) returns (r: Result<(), Error>)
      modifies `pools, `auctions, bitassets
      ensures r.Ok? ==> Effects.Revert(rules.keyedHash, old(Db()).effects, f, height) == Ok(Db().effects)
      ensures r.Err? ==> LiftEffect(Effects.Revert(rules.keyedHash, old(Db()).effects, f, height)) == Err(r.error)
    {
      if f.tx.data.None? { return Ok(()); }
      match f.tx.data.value
      case AmmBurn(amount0, amount1, burn) =>
        var tokens := f.FirstLpToken();
        if tokens.None? { return Err(EffectError(Effects.AmmError(Amm.InvalidBurn))); }
        r := StorePools(Effects.RevertBurn(pools, tokens.value.0, tokens.value.1, burn, amount0, amount1));
      case AmmMint(amount0, amount1, minted) =>
        var assets := f.UniqueSpentAssets();
        if |assets| < 2 { return Err(EffectError(Effects.AmmError(Amm.InvalidMint))); }
        r := StorePools(Effects.RevertMint(pools, f.tx.txid, assets[0], assets[1], amount0, amount1, minted));
      case AmmSwap(spent, received, pairAsset) =>
        var asset := f.FirstSpentAsset();
        if asset.None? { return Err(EffectError(Effects.AmmError(Amm.InvalidSwap))); }
        r := StorePools(Effects.RevertSwap(pools, asset.value, pairAsset, spent, received));
      case BitAssetReservation(_) =>
        var found := bitassets.DeleteReservation(f.tx.txid);
        r := InAssets(if found then Ok(()) else Err(BitAssets.MissingReservation));
      case BitAssetRegistration(name, nonce, _, _) =>
        var changed := bitassets.RevertRegistration(BitAssetId(name), f.SpentReservations(),
                                                    rules.keyedHash(nonce, name));
        r := InAssets(changed);
      case BitAssetMint(amount) =>
        var asset := f.LastControl();
        if asset.None? { return Err(EffectError(Effects.AssetError(BitAssets.NoBitAssetsToMint))); }
        var changed := bitassets.RevertMint(asset.value, amount);
        r := InAssets(changed);
      case BitAssetUpdate(updates) =>
        var asset := f.LastBitAsset();
        if asset.None? { return Err(EffectError(Effects.AssetError(BitAssets.NoBitAssetsToUpdate))); }
        var changed := bitassets.RevertUpdates(asset.value, updates, f.tx.txid, height);
        r := InAssets(changed);
      case DutchAuctionBid(id, receive, _, _) =>
        var asset := f.FirstSpentAsset();
        if asset.None? { return Err(EffectError(Effects.AuctionError(DutchAuction.InvalidTxData))); }
        r := StoreAuctions(Effects.RevertBid(auctions, id, asset.value, receive, f.tx.txid));
      case DutchAuctionCreate(_) =>
        r := StoreAuctions(Effects.RevertCreate(auctions, f.tx.txid));
      case DutchAuctionCollect(_, _, remaining, received) =>
        var auction := f.FirstReceipt();
        if auction.None? { return Err(EffectError(Effects.AuctionError(DutchAuction.InvalidTxData))); }
        r := StoreAuctions(Effects.RevertCollect(auctions, auction.value, remaining, received, f.tx.txid));
    }

    // ---- one transaction at a time ----

    method SpendInputs(tx: Transaction) returns (r: Result<(), Error>)
      modifies `coins
      ensures r.Ok? ==> Coins.Spend(old(coins), tx, |tx.inputs|) == Ok(coins)
      ensures r.Err? ==> LiftCoins(Coins.Spend(old(coins), tx, |tx.inputs|)) == Err(r.error)
    {
      ghost var c := coins;
      var n := 0;
      while n < |tx.inputs|
        invariant n <= |tx.inputs| && Coins.Spend(c, tx, n) == Ok(coins)
      {
        var d := Coins.SpendOne(coins, tx.inputs[n], RegularIn(tx.txid, n));
        if d.Err? {
          SpendStops(c, tx, n + 1, |tx.inputs|);
          return Err(CoinError(d.error));
        }
        coins := d.value;
        n := n + 1;
      }
      return Ok(());
    }

    method CreateOutputs(origin: Coins.Origin, outputs: seq<FilledOutput>)
      modifies `coins
      ensures coins == Coins.Create(old(coins), origin, outputs, |outputs|)
    {
      var v := 0;
      while v < |outputs|
        invariant v <= |outputs| && coins == Coins.Create(old(coins), origin, outputs, v)
      {
        coins := coins.(utxos := coins.utxos[Coins.Place(origin, v) := outputs[v]]);
        v := v + 1;
      }
    }

    method ApplyTransaction(tx: Transaction, height: nat) returns (r: Result<(), Error>)
      modifies `coins, `pools, `auctions, bitassets
      ensures r.Ok? ==> ApplyTx(rules, old(Db()), tx, height) == Ok(Db())
      ensures r.Err? ==> ApplyTx(rules, old(Db()), tx, height) == Err(r.error)
    {
      var f := FillTransaction(tx);
      if f.Err? { return Err(f.error); }
      var spent := SpendInputs(tx);
      if spent.Err? { return Err(spent.error); }
      var outputs := FilledOutputs(rules, f.value);
      if outputs.None? { return Err(FillTxOutputContents(f.value)); }
      CreateOutputs(Coins.FromTx(tx.txid), outputs.value);
      r := ApplyEffect(f.value, height);
    }

    /** Store the coinbase outputs. */
    method PutCoinbase(h: Header, b: Body) returns (ok: bool)
      modifies `coins
      ensures ok <==> CoinbaseOutputs(b.coinbase, |b.coinbase|).Some?
      ensures ok ==> Db() == WithCoinbase(old(Db()), h, CoinbaseOutputs(b.coinbase, |b.coinbase|).value)
    {
      var origin := Coins.FromCoinbase(h.coinbaseTxid);
      var v := 0;
      while v < |b.coinbase|
        invariant v <= |b.coinbase| && CoinbaseOutputs(b.coinbase, v).Some?
        invariant coins == Coins.Create(old(coins), origin, CoinbaseOutputs(b.coinbase, v).value, v)
      {
        var filled := CoinbaseOutput(b.coinbase[v]);
        if filled.None? { return false; }
        ghost var before, after := CoinbaseOutputs(b.coinbase, v).value, CoinbaseOutputs(b.coinbase, v + 1).value;
        CreatePrefix(old(coins), origin, before, after, v);
        coins := coins.(utxos := coins.utxos[Coins.Place(origin, v) := filled.value]);
        v := v + 1;
      }
      return true;
    }

    /** Apply the transaction that follows the first `n`. */
    method ApplyNextTransaction(ghost start: StateDb, txs: seq<Transaction>, n: nat, height: nat)
      returns (r: Result<(), Error>)
      requires n < |txs| && ApplyTxs(rules, start, txs, n, height) == Ok(Db())
      modifies `coins, `pools, `auctions, bitassets
      ensures r.Ok? ==> ApplyTxs(rules, start, txs, n + 1, height) == Ok(Db())
      ensures r.Err? ==> ApplyTxs(rules, start, txs, |txs|, height) == Err(r.error)
    {
      ApplyNext(rules, start, Db(), txs, n, height);
      r := ApplyTransaction(txs[n], height);
    }

    method ApplyTransactions(txs: seq<Transaction>, height: nat) returns (r: Result<(), Error>)
      modifies `coins, `pools, `auctions, bitassets
      ensures r.Ok? ==> ApplyTxs(rules, old(Db()), txs, |txs|, height) == Ok(Db())
      ensures r.Err? ==> ApplyTxs(rules, old(Db()), txs, |txs|, height) == Err(r.error)
    {
      ghost var start := Db();
      r := Ok(());
      for n := 0 to |txs|
        invariant r.Ok? && ApplyTxs(rules, start, txs, n, height) == Ok(Db())
      {
        r := ApplyNextTransaction(start, txs, n, height);
        if r.Err? { return; }
      }
    }

    /** Whatever was written, a failure restores `saved`. */
    method Abort(saved: StateDb, e: Error) returns (r: Result<(), Error>)
      modifies this, bitassets
      ensures Db() == saved && r == Err(e)
    {
      tip, height, coins := saved.tip, saved.height, saved.coins;
      pools, auctions := saved.effects.pools, saved.effects.auctions;
      bitassets.Restore(saved.effects.assets);
      return Err(e);
    }

    method Connect(h: Header, b: Body) returns (r: Result<(), Error>)
      modifies this, bitassets
      ensures r.Ok? ==> Tables.Connect(rules, old(Db()), h, b) == Ok(Db())
      ensures r.Err? ==> Tables.Connect(rules, old(Db()), h, b) == Err(r.error) && Db() == old(Db())
    {
      var saved := Db();
      var height := NextHeight(saved);
      if tip != h.prevSide { return Err(PrevSideHash(tip, h.prevSide)); }
      var filled := FillTransactions(b.transactions);
      if filled.Err? { return Err(filled.error); }
      var bad := CheckRoot(rules, h, b, filled.value);
      if bad.Some? { return Err(bad.value); }
      var ok := PutCoinbase(h, b);
      if !ok { r := Abort(saved, BadCoinbaseOutputContent); return; }
      var applied := ApplyTransactions(b.transactions, height);
      if applied.Err? { r := Abort(saved, applied.error); return; }
      tip, this.height := Some(h.hash), Some(height);
      return Ok(());
    }

    // ---- disconnecting ----

    method DeleteOutputs(origin: Coins.Origin, n: nat) returns (r: Result<(), Error>)
      modifies `coins
      ensures r.Ok? ==> Coins.Uncreate(old(coins), origin, n) == Ok(coins)
      ensures r.Err? ==> LiftCoins(Coins.Uncreate(old(coins), origin, n)) == Err(r.error)
    {
      var v: nat := n;
      while v > 0
        invariant v <= n && Coins.Uncreate(coins, origin, v) == Coins.Uncreate(old(coins), origin, n)
      {
        v := v - 1;
        var o := Coins.Place(origin, v);
        if o !in coins.utxos { return Err(CoinError(Coins.NoUtxo(o))); }
        coins := coins.(utxos := coins.utxos - {o});
      }
      return Ok(());
    }

    method UnspendInputs(tx: Transaction) returns (r: Result<(), Error>)
      modifies `coins
      ensures r.Ok? ==> Coins.Unspend(old(coins), tx, |tx.inputs|) == Ok(coins)
      ensures r.Err? ==> LiftCoins(Coins.Unspend(old(coins), tx, |tx.inputs|)) == Err(r.error)
    {
      var n: nat := |tx.inputs|;
      while n > 0
        invariant n <= |tx.inputs| && Coins.Unspend(coins, tx, n) == Coins.Unspend(old(coins), tx, |tx.inputs|)
      {
        n := n - 1;
        var d := Coins.UnspendOne(coins, tx.inputs[n]);
        if d.Err? { return Err(CoinError(d.error)); }
        coins := d.value;
      }
      return Ok(());
    }

    method RevertTransaction(tx: Transaction, height: nat) returns (r: Result<(), Error>)
      modifies `coins, `pools, `auctions, bitassets
      ensures r.Ok? ==> RevertTx(rules, old(Db()), tx, height) == Ok(Db())
      ensures r.Err? ==> RevertTx(rules, old(Db()), tx, height) == Err(r.error)
    {
      var f := FillTransactionFromStxos(tx);
      if f.Err? { return Err(f.error); }
      var reverted := RevertEffect(f.value, height);
      if reverted.Err? { return Err(reverted.error); }
      var deleted := DeleteOutputs(Coins.FromTx(tx.txid), |tx.outputs|);
      if deleted.Err? { return Err(deleted.error); }
      var unspent := UnspendInputs(tx);
      if unspent.Err? { return Err(unspent.error); }
      return Ok(());
    }

    /** Revert transactions, last to first. */
    method RevertTransactions(txs: seq<Transaction>, height: nat) returns (r: Result<(), Error>)
      modifies `coins, `pools, `auctions, bitassets
      ensures r.Ok? ==> RevertTxs(rules, old(Db()), txs, |txs|, height) == Ok(Db())
      ensures r.Err? ==> RevertTxs(rules, old(Db()), txs, |txs|, height) == Err(r.error)
    {
      var n: nat := |txs|;
      while n > 0
        invariant n <= |txs| && RevertTxs(rules, Db(), txs, n, height) ==
                  RevertTxs(rules, old(Db()), txs, |txs|, height)
      {
        n := n - 1;
        var reverted := RevertTransaction(txs[n], height);
        if reverted.Err? { return Err(reverted.error); }
      }
      return Ok(());
    }

    method DisconnectTip(h: Header, b: Body) returns (r: Result<(), Error>)
      modifies this, bitassets
      ensures r.Ok? ==> Disconnect(rules, old(Db()), h, b) == Ok(Db())
      ensures r.Err? ==> Disconnect(rules, old(Db()), h, b) == Err(r.error) && Db() == old(Db())
    {
      var saved := Db();
      if tip.None? { return Err(NoTip); }
      if tip.value != h.hash { return Err(TipHash(tip.value, h.hash)); }
      var filled := FillTransactionsFromStxos(b.transactions);
      if filled.Err? { return Err(filled.error); }
      var bad := CheckRoot(rules, h, b, filled.value);
      if bad.Some? { return Err(SwapExpected(bad.value)); }
      if this.height.None? { return Err(Panic); }
      var height := this.height.value;
      var reverted := RevertTransactions(b.transactions, height);
      if reverted.Err? { r := Abort(saved, reverted.error); return; }
      var deleted := DeleteOutputs(Coins.FromCoinbase(h.coinbaseTxid), |b.coinbase|);
      if deleted.Err? { r := Abort(saved, deleted.error); return; }
      var back := StepBack(Db(), h.prevSide, height);
      if back.Err? { r := Abort(saved, back.error); return; }
      tip, this.height := back.value.tip, back.value.height;
      return Ok(());
    }

    // ---- validating up front and connecting in one batch ----

    method SumCoinbase(outputs: seq<Output>) returns (r: Result<nat, Error>)
      ensures r == Batching.CoinbaseValue(outputs, |outputs|)
    {
      var total := 0;
      var n := 0;
      while n < |outputs|
        invariant n <= |outputs| && Batching.CoinbaseValue(outputs, n) == Ok(total)
      {
        if total + BitcoinValue(outputs[n]) >= U64_LIMIT {
          ValueStops(outputs, n + 1, |outputs|);
          return Err(AmountOverflow);
        }
        total := total + BitcoinValue(outputs[n]);
        n := n + 1;
      }
      return Ok(total);
    }

    /** Sort all inputs by encoded outpoint and look for equal neighbours. */
    method SpendsTwice(txs: seq<Transaction>) returns (found: bool)
      ensures found <==> !Distinct(Batching.AllInputs(txs, |txs|))
    {
      var keys: seq<OutPoint> := [];
      var n := 0;
      while n < |txs|
        invariant n <= |txs| && keys == Batching.AllInputs(txs, n)
      {
        keys := keys + txs[n].inputs;
        n := n + 1;
      }
      var sorted := SortBy(keys, Itself());
      SortSorts(keys, Itself());
      ScanFindsDuplicates(keys, sorted);
      found := false;
      n := 0;
      while n + 1 < |sorted|
        invariant found <==> exists i :: 0 <= i < n && i + 1 < |sorted| && sorted[i] == sorted[i + 1]
        invariant n <= |sorted|
      {
        if sorted[n] == sorted[n + 1] { found := true; }
        n := n + 1;
      }
    }

    method SumFees(filled: seq<FilledTransaction>) returns (r: Result<nat, Error>)
      ensures r == Batching.TotalFees(rules, Db(), filled, |filled|)
    {
      var total := 0;
      var n := 0;
      while n < |filled|
        invariant n <= |filled| && Batching.TotalFees(rules, Db(), filled, n) == Ok(total)
      {
        var fee := rules.fee(Db(), filled[n]);
        if fee.None? {
          FeesStop(rules, Db(), filled, n + 1, |filled|);
          return Err(InvalidTransaction(filled[n]));
        }
        if total + fee.value >= U64_LIMIT {
          FeesStop(rules, Db(), filled, n + 1, |filled|);
          return Err(AmountOverflow);
        }
        total := total + fee.value;
        n := n + 1;
      }
      return Ok(total);
    }

    method OwnersAuthorize(b: Body, filled: seq<FilledTransaction>) returns (ok: bool)
      ensures ok <==> Batching.AuthorizedByOwners(b, Batching.AllSpent(filled, |filled|))
    {
      var spent: seq<FilledOutput> := [];
      var n := 0;
      while n < |filled|
        invariant n <= |filled| && spent == Batching.AllSpent(filled, n)
      {
        spent := spent + filled[n].spent;
        n := n + 1;
      }
      var i := 0;
      while i < |b.authorizations| && i < |spent|
        invariant i <= |b.authorizations| && i <= |spent|
        invariant forall j | 0 <= j < i :: b.authorizations[j] == spent[j].address
      {
        if b.authorizations[i] != spent[i].address { return false; }
        i := i + 1;
      }
      return true;
    }

    method Prevalidate(h: Header, b: Body) returns (r: Result<Batching.Prevalidated, Error>)
      ensures r == Batching.Prevalidate(rules, Db(), h, b)
    {
      if !rules.withinSize(b) { return Err(BodyTooLarge); }
      if tip != h.prevSide { return Err(PrevSideHash(tip, h.prevSide)); }
      var filled := FillTransactions(b.transactions);
      if filled.Err? { return Err(filled.error); }
      var bad := CheckRoot(rules, h, b, filled.value);
      if bad.Some? { return Err(SwapExpected(bad.value)); }
      var coinbase := SumCoinbase(b.coinbase);
      if coinbase.Err? { return Err(coinbase.error); }
      var twice := SpendsTwice(b.transactions);
      if twice { return Err(UtxoDoubleSpent); }
      var fees := SumFees(filled.value);
      if fees.Err? { return Err(fees.error); }
      if coinbase.value > fees.value { return Err(NotEnoughFees); }
      var owners := OwnersAuthorize(b, filled.value);
      if !owners { return Err(WrongPubKeyForAddress); }
      if !rules.authorized(b) { return Err(Unauthorized); }
      return Ok(Batching.Prevalidated(filled.value, h.merkleRoot, fees.value, coinbase.value, NextHeight(Db())));
    }

    /** Apply one transaction's effect, and collect what it deletes and puts. */
    method GatherTransaction(batch: Batching.Batch, f: FilledTransaction, height: nat)
      returns (r: Result<Batching.Batch, Error>)
      requires |f.tx.inputs| == |f.spent|
      modifies `pools, `auctions, bitassets
      ensures Gathering(Batching.GatherTx(rules, Batching.Gathered(batch, old(Db()).effects), f, height), r,
                        Db().effects)
    {
      var a := batch;
      var n := 0;
      while n < |f.tx.inputs|
        invariant n <= |f.tx.inputs| && a == Batching.GatherInputs(batch, f, n)
      {
        var o := f.tx.inputs[n];
        a := a.(deletes := a.deletes + [o],
                stxoPuts := a.stxoPuts + [(o, SpentOutput(f.spent[n], RegularIn(f.tx.txid, n)))]);
        n := n + 1;
      }
      var outputs := FilledOutputs(rules, f);
      if outputs.None? { return Err(FillTxOutputContents(f)); }
      ghost var inputs := a;
      var v := 0;
      while v < |outputs.value|
        invariant v <= |outputs.value| && a == Batching.GatherOutputs(inputs, Coins.FromTx(f.tx.txid), outputs.value, v)
      {
        a := a.(utxoPuts := a.utxoPuts + [(Coins.Place(Coins.FromTx(f.tx.txid), v), outputs.value[v])]);
        v := v + 1;
      }
      var applied := ApplyEffect(f, height);
      if applied.Err? { return Err(applied.error); }
      return Ok(a);
    }

    method GatherCoinbase(h: Header, outputs: seq<FilledOutput>) returns (a: Batching.Batch)
      ensures a == Batching.CoinbaseBatch(h, outputs)
    {
      a := Batching.Batch([], [], []);
      var v := 0;
      while v < |outputs|
        invariant v <= |outputs|
        invariant a == Batching.GatherOutputs(Batching.Batch([], [], []), Coins.FromCoinbase(h.coinbaseTxid),
                                              outputs, v)
      {
        a := a.(utxoPuts := a.utxoPuts + [(Coins.Place(Coins.FromCoinbase(h.coinbaseTxid), v), outputs[v])]);
        v := v + 1;
      }
    }

    method GatherTransactions(start: Batching.Batch, filled: seq<FilledTransaction>, height: nat)
      returns (r: Result<Batching.Batch, Error>)
      requires Batching.WellFilled(filled)
      modifies `pools, `auctions, bitassets
      ensures Gathering(Batching.GatherTxs(rules, Batching.Gathered(start, old(Db()).effects), filled, |filled|,
                                           height), r, Db().effects)
    {
      ghost var g := Batching.Gathered(start, Db().effects);
      r := Ok(start);
      var n := 0;
      while n < |filled|
        invariant n <= |filled| && r.Ok?
        invariant Batching.GatherTxs(rules, g, filled, n, height) == Ok(Batching.Gathered(r.value, Db().effects))
      {
        r := GatherTransaction(r.value, filled[n], height);
        if r.Err? {
          GatherStops(rules, g, filled, n + 1, |filled|, height);
          return;
        }
        n := n + 1;
      }
    }

    /** Write sorted rows: deletions, spent outputs, new outputs. */
    method WriteBatch(a: Batching.Batch)
      modifies `coins
      ensures coins == Batching.Written(old(coins), a)
    {
      var utxos, stxos := coins.utxos, coins.stxos;
      var n := 0;
      while n < |a.deletes|
        invariant n <= |a.deletes| && utxos == DeleteAll(old(coins.utxos), a.deletes[..n])
      {
        assert a.deletes[..n + 1][..n] == a.deletes[..n];
        utxos := utxos - {a.deletes[n]};
        n := n + 1;
      }
      assert a.deletes[..n] == a.deletes;
      n := 0;
      while n < |a.stxoPuts|
        invariant n <= |a.stxoPuts| && stxos == PutAll(old(coins.stxos), a.stxoPuts[..n])
      {
        assert a.stxoPuts[..n + 1][..n] == a.stxoPuts[..n];
        stxos := stxos[a.stxoPuts[n].0 := a.stxoPuts[n].1];
        n := n + 1;
      }
      assert a.stxoPuts[..n] == a.stxoPuts;
      ghost var deleted := utxos;
      n := 0;
      while n < |a.utxoPuts|
        invariant n <= |a.utxoPuts| && utxos == PutAll(deleted, a.utxoPuts[..n])
      {
        assert a.utxoPuts[..n + 1][..n] == a.utxoPuts[..n];
        utxos := utxos[a.utxoPuts[n].0 := a.utxoPuts[n].1];
        n := n + 1;
      }
      assert a.utxoPuts[..n] == a.utxoPuts;
      coins := Coins.Coins(utxos, stxos);
    }

    method ConnectPrevalidated(h: Header, b: Body, p: Batching.Prevalidated) returns (r: Result<(), Error>)
      requires Batching.WellFilled(p.filled)
      modifies this, bitassets
      ensures r.Ok? ==> Batching.ConnectBatched(rules, old(Db()), h, b, p) == Ok(Db())
      ensures r.Err? ==> Batching.ConnectBatched(rules, old(Db()), h, b, p) == Err(r.error) && Db() == old(Db())
    {
      var saved := Db();
      var coinbase := CoinbaseOutputs(b.coinbase, |b.coinbase|);
      if coinbase.None? { return Err(BadCoinbaseOutputContent); }
      var a := GatherCoinbase(h, coinbase.value);
      var batch := GatherTransactions(a, p.filled, p.nextHeight);
      if batch.Err? { r := Abort(saved, batch.error); return; }
      WriteBatch(Batching.SortedBatch(batch.value));
      tip, height := Some(h.hash), Some(p.nextHeight);
      return Ok(());
    }
  }
}
