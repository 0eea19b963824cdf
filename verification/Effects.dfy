/**
 What a transaction's data does to pools, auctions and registered assets, and
 the inverse of each of the ten kinds of effect.
 */
module Effects {
  import opened Wrappers
  import opened Arith
  import opened ChainTypes
  import opened Transactions
  import Amm
  import DutchAuction
  import BitAssets

  /** Ordered pair of assets. */
  datatype AmmPair = AmmPair(asset0: AssetId, asset1: AssetId)

  type Pools = map<AmmPair, Amm.PoolState>
  type Auctions = map<Txid, DutchAuction.Auction>

  datatype Error =
    | AmmError(amm: Amm.Error)
    | AuctionError(auction: DutchAuction.Error)
    | AssetError(asset: BitAssets.Error)

  datatype Effects = Effects(pools: Pools, auctions: Auctions, assets: BitAssets.Tables)

  function Rank(a: AssetId): (int, int) {
    match a
    case Bitcoin => (0, 0)
    case BitAsset(x) => (1, x.nameHash)
    case BitAssetControl(x) => (2, x.nameHash)
  }

  predicate AssetLess(a: AssetId, b: AssetId) {
    Rank(a).0 < Rank(b).0 || (Rank(a).0 == Rank(b).0 && Rank(a).1 < Rank(b).1)
  }

  lemma AssetOrderTotal(a: AssetId, b: AssetId)
    ensures a == b || (AssetLess(a, b) && !AssetLess(b, a)) || (AssetLess(b, a) && !AssetLess(a, b))
    ensures a == b ==> !AssetLess(a, b)
  {
  }

  function PairOf(a: AssetId, b: AssetId): AmmPair {
    if AssetLess(b, a) then AmmPair(b, a) else AmmPair(a, b)
  }

  // ---- pools ----

  /** Pools pair distinct assets and are solvent. */
  predicate PoolsSound(pools: Pools) {
    forall p | p in pools :: p.asset0 != p.asset1 && pools[p].Solvent()
  }

  function ApplyBurn(pools: Pools, a: AssetId, b: AssetId, burn: nat, amount0: nat, amount1: nat)
    : Result<Pools, Amm.Error>
  {
    var pair := PairOf(a, b);
    if pair !in pools then Err(Amm.MissingPoolState)
    else
      var pool := pools[pair];
      var q :- pool.Burn(burn);
      if pool.reserve0 - q.reserve0 != amount0 || pool.reserve1 - q.reserve1 != amount1 then Err(Amm.InvalidBurn)
      else Ok(pools[pair := q])
  }

  function RevertBurn(pools: Pools, a: AssetId, b: AssetId, burn: nat, amount0: nat, amount1: nat)
    : Result<Pools, Amm.Error>
  {
    var pair := PairOf(a, b);
    if pair !in pools then Err(Amm.MissingPoolState)
    else
      var q :- pools[pair].Unburn(burn, amount0, amount1);
      Ok(pools[pair := q])
  }

  function ApplyMint(pools: Pools, txid: Txid, a: AssetId, b: AssetId, amount0: nat, amount1: nat, minted: nat)
    : Result<Pools, Amm.Error>
  {
    var pair := PairOf(a, b);
    if a == b then Err(Amm.InvalidMint)
    else
      var pool := if pair in pools then pools[pair] else Amm.NewPool(txid);
      var q :- pool.Mint(amount0, amount1);
      if q.lpTokens - pool.lpTokens != minted then Err(Amm.InvalidMint)
      else Ok(pools[pair := q])
  }

  function RevertMint(pools: Pools, txid: Txid, a: AssetId, b: AssetId, amount0: nat, amount1: nat, minted: nat)
    : Result<Pools, Amm.Error>
  {
    var pair := PairOf(a, b);
    if a == b then Err(Amm.InvalidMint)
    else if pair !in pools then Err(Amm.MissingPoolState)
    else if pools[pair].creationTxid == txid then Ok(pools - {pair})
    else
      var q :- pools[pair].RevertMint(amount0, amount1, minted);
      Ok(pools[pair := q])
  }

  function SwapIn(pool: Amm.PoolState, asset0: bool, spent: nat): Result<Amm.PoolState, Amm.Error> {
    if asset0 then pool.SwapAsset0ForAsset1(spent) else pool.SwapAsset1ForAsset0(spent)
  }

  function ApplySwap(pools: Pools, spend: AssetId, receive: AssetId, spent: nat, received: nat)
    : Result<Pools, Amm.Error>
  {
    var pair := PairOf(spend, receive);
    if pair !in pools then Err(Amm.MissingPoolState)
    else
      var pool := pools[pair];
      var asset0 := AssetLess(spend, receive);
      var q :- SwapIn(pool, asset0, spent);
      var paid := if asset0 then pool.reserve1 - q.reserve1 else pool.reserve0 - q.reserve0;
      if received != paid then Err(Amm.InvalidSwap)
      else Ok(pools[pair := q])
  }

  function RevertSwap(pools: Pools, spend: AssetId, receive: AssetId, spent: nat, received: nat)
    : Result<Pools, Amm.Error>
  {
    var pair := PairOf(spend, receive);
    if pair !in pools then Err(Amm.MissingPoolState)
    else
      var q :- pools[pair].RevertSwap(spend == pair.asset0, spend == pair.asset1, spent, received);
      Ok(pools[pair := q])
  }

  lemma BurnUndone(pools: Pools, a: AssetId, b: AssetId, burn: nat, amount0: nat, amount1: nat)
    requires PoolsSound(pools) && ApplyBurn(pools, a, b, burn, amount0, amount1).Ok?
    ensures RevertBurn(ApplyBurn(pools, a, b, burn, amount0, amount1).value, a, b, burn, amount0, amount1) == Ok(pools)
    ensures PoolsSound(ApplyBurn(pools, a, b, burn, amount0, amount1).value)
  {
    var pair := PairOf(a, b);
    Amm.UnburnUndoes(pools[pair], burn);
    Amm.BurnKeepsSolvent(pools[pair], burn);
    assert pools[pair := pools[pair].Burn(burn).value][pair := pools[pair]] == pools;
  }

  lemma MintUndone(pools: Pools, txid: Txid, a: AssetId, b: AssetId, amount0: nat, amount1: nat, minted: nat)
    requires PoolsSound(pools) && forall p | p in pools :: pools[p].creationTxid != txid
    requires ApplyMint(pools, txid, a, b, amount0, amount1, minted).Ok?
    ensures RevertMint(ApplyMint(pools, txid, a, b, amount0, amount1, minted).value, txid, a, b, amount0, amount1,
                       minted) == Ok(pools)
    ensures PoolsSound(ApplyMint(pools, txid, a, b, amount0, amount1, minted).value)
  {
    var pair := PairOf(a, b);
    var pool := if pair in pools then pools[pair] else Amm.NewPool(txid);
    var q := pool.Mint(amount0, amount1).value;
    Amm.RevertMintUndoes(pool, amount0, amount1);
    Amm.MintKeepsSolvent(pool, amount0, amount1);
    if pair in pools {
      assert pools[pair := q][pair := pool] == pools;
    } else {
      assert pools[pair := q] - {pair} == pools;
    }
  }

  lemma SwapUndone(pools: Pools, spend: AssetId, receive: AssetId, spent: nat, received: nat)
    requires PoolsSound(pools) && ApplySwap(pools, spend, receive, spent, received).Ok?
    ensures RevertSwap(ApplySwap(pools, spend, receive, spent, received).value, spend, receive, spent, received) ==
            Ok(pools)
    ensures PoolsSound(ApplySwap(pools, spend, receive, spent, received).value)
  {
    var pair := PairOf(spend, receive);
    var asset0 := AssetLess(spend, receive);
    AssetOrderTotal(spend, receive);
    Amm.RevertSwapUndoes(pools[pair], asset0, spent);
    Amm.SwapKeepsSolvent(pools[pair], asset0, spent);
    assert pools[pair := SwapIn(pools[pair], asset0, spent).value][pair := pools[pair]] == pools;
  }

  // ---- auctions ----

  function ApplyCreate(auctions: Auctions, p: DutchAuction.Params, txid: Txid, height: nat)
    : Result<Auctions, DutchAuction.Error>
  {
    var a :- DutchAuction.Create(p, txid, height);
    Ok(auctions[txid := a])
  }

  function RevertCreate(auctions: Auctions, txid: Txid): Result<Auctions, DutchAuction.Error> {
    if txid in auctions then Ok(auctions - {txid}) else Err(DutchAuction.Missing)
  }

  function ApplyBid(auctions: Auctions, id: Txid, spend: AssetId, receive: AssetId, spent: nat, received: nat,
                    txid: Txid, height: nat): Result<Auctions, DutchAuction.Error>
  {
    if id !in auctions then Err(DutchAuction.MissingAuction)
    else
      var a := auctions[id];
      if receive != a.baseAsset then Err(DutchAuction.IncorrectReceiveAsset)
      else if spend != a.quoteAsset then Err(DutchAuction.IncorrectSpendAsset)
      else if received > a.Base() then Err(DutchAuction.QuantityTooLarge)
      else
        var b :- a.Bid(txid, spent, height);
        if received != a.Base() - b.Base() then Err(DutchAuction.InvalidPrice)
        else Ok(auctions[id := b])
  }

  function RevertBid(auctions: Auctions, id: Txid, spend: AssetId, receive: AssetId, txid: Txid)
    : Result<Auctions, DutchAuction.Error>
  {
    if id !in auctions then Err(DutchAuction.MissingAuction)
    else if receive != auctions[id].baseAsset then Err(DutchAuction.IncorrectReceiveAsset)
    else if spend != auctions[id].quoteAsset then Err(DutchAuction.IncorrectSpendAsset)
    else
      var a :- auctions[id].RevertBid(txid);
      Ok(auctions[id := a])
  }

  function ApplyCollect(auctions: Auctions, id: Txid, offered: AssetId, receive: AssetId, remaining: nat, received: nat,
                        txid: Txid, height: nat): Result<Auctions, DutchAuction.Error>
  {
    if id !in auctions then Err(DutchAuction.MissingAuction)
    else if auctions[id].baseAsset != offered then Err(DutchAuction.IncorrectOfferedAsset)
    else if auctions[id].quoteAsset != receive then Err(DutchAuction.IncorrectReceiveAsset)
    else
      var a :- auctions[id].Collect(txid, remaining, received, height);
      Ok(auctions[id := a])
  }

  function RevertCollect(auctions: Auctions, id: Txid, remaining: nat, received: nat, txid: Txid)
    : Result<Auctions, DutchAuction.Error>
  {
    if id !in auctions then Err(DutchAuction.Revert)
    else
      var a :- auctions[id].RevertCollect(txid, remaining, received);
      Ok(auctions[id := a])
  }

  lemma CreateUndone(auctions: Auctions, p: DutchAuction.Params, txid: Txid, height: nat)
    requires txid !in auctions && ApplyCreate(auctions, p, txid, height).Ok?
    ensures RevertCreate(ApplyCreate(auctions, p, txid, height).value, txid) == Ok(auctions)
  {
    assert auctions[txid := DutchAuction.Create(p, txid, height).value] - {txid} == auctions;
  }

  lemma BidUndone(auctions: Auctions, id: Txid, spend: AssetId, receive: AssetId, spent: nat, received: nat,
                  txid: Txid, height: nat)
    requires ApplyBid(auctions, id, spend, receive, spent, received, txid, height).Ok?
    ensures RevertBid(ApplyBid(auctions, id, spend, receive, spent, received, txid, height).value, id, spend, receive,
                      txid) == Ok(auctions)
  {
    var b := auctions[id].Bid(txid, spent, height).value;
    DutchAuction.RevertBidUndoes(auctions[id], txid, spent, height);
    assert auctions[id := b][id := auctions[id]] == auctions;
  }

  lemma CollectUndone(auctions: Auctions, id: Txid, offered: AssetId, receive: AssetId, remaining: nat, received: nat,
                      txid: Txid, height: nat)
    requires ApplyCollect(auctions, id, offered, receive, remaining, received, txid, height).Ok?
    ensures RevertCollect(ApplyCollect(auctions, id, offered, receive, remaining, received, txid, height).value, id,
                          remaining, received, txid) == Ok(auctions)
  {
    var b := auctions[id].Collect(txid, remaining, received, height).value;
    DutchAuction.RevertCollectUndoes(auctions[id], txid, remaining, received, height);
    assert auctions[id := b][id := auctions[id]] == auctions;
  }

  // ---- all ten kinds ----

  function WithPools(e: Effects, r: Result<Pools, Amm.Error>): Result<Effects, Error> {
    match r case Ok(p) => Ok(e.(pools := p)) case Err(x) => Err(AmmError(x))
  }

  function WithAuctions(e: Effects, r: Result<Auctions, DutchAuction.Error>): Result<Effects, Error> {
    match r case Ok(a) => Ok(e.(auctions := a)) case Err(x) => Err(AuctionError(x))
  }

  function WithAssets(e: Effects, r: Result<BitAssets.Tables, BitAssets.Error>): Result<Effects, Error> {
    match r case Ok(t) => Ok(e.(assets := t)) case Err(x) => Err(AssetError(x))
  }

  /** The keyed hash that turns a revealed nonce and a name into a reservation commitment. */
  type KeyedHash = (int, int) -> int

  function Apply(hash: KeyedHash, e: Effects, f: FilledTransaction, height: nat): Result<Effects, Error> {
    if f.tx.data.None? then Ok(e)
    else match f.tx.data.value
      case AmmBurn(amount0, amount1, burn) =>
        if f.FirstLpToken().None? then Err(AmmError(Amm.InvalidBurn))
        else WithPools(e, ApplyBurn(e.pools, f.FirstLpToken().value.0, f.FirstLpToken().value.1, burn, amount0,
                                    amount1))
      case AmmMint(amount0, amount1, minted) =>
        if |f.UniqueSpentAssets()| < 2 then Err(AmmError(Amm.InvalidMint))
        else WithPools(e, ApplyMint(e.pools, f.tx.txid, f.UniqueSpentAssets()[0], f.UniqueSpentAssets()[1], amount0,
                                    amount1, minted))
      case AmmSwap(spent, received, pairAsset) =>
        if f.FirstSpentAsset().None? then Err(AmmError(Amm.InvalidSwap))
        else WithPools(e, ApplySwap(e.pools, f.FirstSpentAsset().value, pairAsset, spent, received))
      case BitAssetReservation(commitment) =>
        Ok(e.(assets := BitAssets.PutReservation(e.assets, f.tx.txid, commitment)))
      case BitAssetRegistration(name, nonce, initial, supply) =>
        WithAssets(e, BitAssets.Register(e.assets, BitAssetId(name), f.SpentReservations(), hash(nonce, name), initial,
                                         supply, f.tx.txid, height))
      case BitAssetMint(amount) =>
        if f.LastControl().None? then Err(AssetError(BitAssets.NoBitAssetsToMint))
        else WithAssets(e, BitAssets.Mint(e.assets, f.LastControl().value, amount, f.tx.txid, height))
      case BitAssetUpdate(updates) =>
        if f.LastBitAsset().None? then Err(AssetError(BitAssets.NoBitAssetsToUpdate))
        else WithAssets(e, BitAssets.UpdateData(e.assets, f.LastBitAsset().value, updates, f.tx.txid, height))
      case DutchAuctionBid(id, receive, quantity, size) =>
        if f.FirstSpentAsset().None? then Err(AuctionError(DutchAuction.InvalidTxData))
        else WithAuctions(e, ApplyBid(e.auctions, id, f.FirstSpentAsset().value, receive, size, quantity, f.tx.txid,
                                      height))
      case DutchAuctionCreate(params) =>
        WithAuctions(e, ApplyCreate(e.auctions, params, f.tx.txid, height))
      case DutchAuctionCollect(offered, receive, remaining, received) =>
        if f.FirstReceipt().None? then Err(AuctionError(DutchAuction.InvalidTxData))
        else WithAuctions(e, ApplyCollect(e.auctions, f.FirstReceipt().value, offered, receive, remaining, received,
                                          f.tx.txid, height))
  }

  function Revert(hash: KeyedHash, e: Effects, f: FilledTransaction, height: nat): Result<Effects, Error> {
    if f.tx.data.None? then Ok(e)
    else match f.tx.data.value
      case AmmBurn(amount0, amount1, burn) =>
        if f.FirstLpToken().None? then Err(AmmError(Amm.InvalidBurn))
        else WithPools(e, RevertBurn(e.pools, f.FirstLpToken().value.0, f.FirstLpToken().value.1, burn, amount0,
                                     amount1))
      case AmmMint(amount0, amount1, minted) =>
        if |f.UniqueSpentAssets()| < 2 then Err(AmmError(Amm.InvalidMint))
        else WithPools(e, RevertMint(e.pools, f.tx.txid, f.UniqueSpentAssets()[0], f.UniqueSpentAssets()[1], amount0,
                                     amount1, minted))
      case AmmSwap(spent, received, pairAsset) =>
        if f.FirstSpentAsset().None? then Err(AmmError(Amm.InvalidSwap))
        else WithPools(e, RevertSwap(e.pools, f.FirstSpentAsset().value, pairAsset, spent, received))
      case BitAssetReservation(_) =>
        WithAssets(e, BitAssets.DeleteReservation(e.assets, f.tx.txid))
      case BitAssetRegistration(name, nonce, _, _) =>
        WithAssets(e, BitAssets.RevertRegister(e.assets, BitAssetId(name), f.SpentReservations(), hash(nonce, name)))
      case BitAssetMint(amount) =>
        if f.LastControl().None? then Err(AssetError(BitAssets.NoBitAssetsToMint))
        else WithAssets(e, BitAssets.RevertMint(e.assets, f.LastControl().value, amount))
      case BitAssetUpdate(updates) =>
        if f.LastBitAsset().None? then Err(AssetError(BitAssets.NoBitAssetsToUpdate))
        else WithAssets(e, BitAssets.RevertUpdate(e.assets, f.LastBitAsset().value, updates, f.tx.txid, height))
      case DutchAuctionBid(id, receive, _, _) =>
        if f.FirstSpentAsset().None? then Err(AuctionError(DutchAuction.InvalidTxData))
        else WithAuctions(e, RevertBid(e.auctions, id, f.FirstSpentAsset().value, receive, f.tx.txid))
      case DutchAuctionCreate(_) =>
        WithAuctions(e, RevertCreate(e.auctions, f.tx.txid))
      case DutchAuctionCollect(_, _, remaining, received) =>
        if f.FirstReceipt().None? then Err(AuctionError(DutchAuction.InvalidTxData))
        else WithAuctions(e, RevertCollect(e.auctions, f.FirstReceipt().value, remaining, received, f.tx.txid))
  }

  /** No pool, auction or reservation was created by `txid` yet. */
  predicate UnusedTxid(e: Effects, txid: Txid) {
    && (forall p | p in e.pools :: e.pools[p].creationTxid != txid)
    && txid !in e.auctions && txid !in e.assets.reservations
  }

  /** The asset a transaction registers, if any. */
  function Registers(tx: Transaction): Option<BitAssetId> {
    if tx.data.Some? && tx.data.value.BitAssetRegistration? then Some(BitAssetId(tx.data.value.nameHash)) else None
  }

  /** An asset to be registered is new, and so is the number that it will get. */
  predicate Registrable(e: Effects, tx: Transaction) {
    Registers(tx).Some? ==> Registers(tx).value !in e.assets.toSeq && BitAssets.NextSeq(e.assets) !in e.assets.toAsset
  }

  /** The txid is new, and the reservations that are spent are stored as their outputs say. */
  predicate Fresh(e: Effects, f: FilledTransaction) {
    && UnusedTxid(e, f.tx.txid) && e.assets.data.Keys == e.assets.toSeq.Keys
    && forall r | r in f.SpentReservations() && r.0 in e.assets.reservations :: e.assets.reservations[r.0] == r.1
  }

  /**
   Pools stay solvent, and every effect is undone by its inverse; a registration,
   exactly if asset and number were new.
   */
  lemma EffectUndone(hash: KeyedHash, e: Effects, f: FilledTransaction, height: nat)
    requires PoolsSound(e.pools) && Fresh(e, f) && Apply(hash, e, f, height).Ok?
    ensures Revert(hash, Apply(hash, e, f, height).value, f, height) == Ok(e) <==> Registrable(e, f.tx)
    ensures PoolsSound(Apply(hash, e, f, height).value.pools)
  {
    if f.tx.data.Some? {
      var txid := f.tx.txid;
      match f.tx.data.value
      case AmmBurn(amount0, amount1, burn) =>
        BurnUndone(e.pools, f.FirstLpToken().value.0, f.FirstLpToken().value.1, burn, amount0, amount1);
      case AmmMint(amount0, amount1, minted) =>
        MintUndone(e.pools, txid, f.UniqueSpentAssets()[0], f.UniqueSpentAssets()[1], amount0, amount1, minted);
      case AmmSwap(spent, received, pairAsset) =>
        SwapUndone(e.pools, f.FirstSpentAsset().value, pairAsset, spent, received);
      case BitAssetReservation(commitment) =>
        BitAssets.DeleteReservationUndoes(e.assets, txid, commitment);
      case BitAssetRegistration(name, nonce, initial, supply) =>
        BitAssets.RevertRegisterUndoes(e.assets, BitAssetId(name), f.SpentReservations(), hash(nonce, name), initial,
                                       supply, txid, height);
      case BitAssetMint(amount) =>
        BitAssets.RevertMintUndoes(e.assets, f.LastControl().value, amount, txid, height);
      case BitAssetUpdate(updates) =>
        BitAssets.RevertUpdateUndoes(e.assets, f.LastBitAsset().value, updates, txid, height);
      case DutchAuctionBid(id, receive, quantity, size) =>
        BidUndone(e.auctions, id, f.FirstSpentAsset().value, receive, size, quantity, txid, height);
      case DutchAuctionCreate(params) =>
        CreateUndone(e.auctions, params, txid, height);
      case DutchAuctionCollect(offered, receive, remaining, received) =>
        CollectUndone(e.auctions, f.FirstReceipt().value, offered, receive, remaining, received, txid, height);
    }
  }

  /** An effect stores new pools, auctions and reservations under its own txid only. */
  lemma PoolsUseOwnTxid(hash: KeyedHash, e: Effects, f: FilledTransaction, height: nat, txid: Txid)
    requires Apply(hash, e, f, height).Ok? && txid != f.tx.txid
    requires forall p | p in e.pools :: e.pools[p].creationTxid != txid
    ensures forall p | p in Apply(hash, e, f, height).value.pools ::
      Apply(hash, e, f, height).value.pools[p].creationTxid != txid
  {
  }

  lemma AuctionsUseOwnTxid(hash: KeyedHash, e: Effects, f: FilledTransaction, height: nat, txid: Txid)
    requires Apply(hash, e, f, height).Ok? && txid != f.tx.txid && txid !in e.auctions
    ensures txid !in Apply(hash, e, f, height).value.auctions
  {
  }

  lemma ReservationsUseOwnTxid(hash: KeyedHash, e: Effects, f: FilledTransaction, height: nat, txid: Txid)
    requires Apply(hash, e, f, height).Ok? && txid != f.tx.txid
             && txid in Apply(hash, e, f, height).value.assets.reservations
    ensures txid in e.assets.reservations
    ensures Apply(hash, e, f, height).value.assets.reservations[txid] == e.assets.reservations[txid]
  {
    if f.tx.data.Some? {
      var r := Apply(hash, e, f, height).value.assets.reservations;
      match f.tx.data.value
      case BitAssetReservation(commitment) => assert r == e.assets.reservations[f.tx.txid := commitment];
      case BitAssetRegistration(_, _, _, _) => assert r.Keys <= e.assets.reservations.Keys;
      case _ => assert r == e.assets.reservations;
    }
  }

  /** The registration that a transaction makes, if any. */
  function RegisteredBy(tx: Transaction): BitAssets.Registrations
  {
    if Registers(tx).Some? then BitAssets.Then(BitAssets.Nothing, Registers(tx).value) else BitAssets.Nothing
  }

  ghost predicate SameNumbers(t: BitAssets.Tables, u: BitAssets.Tables) {
    u.toSeq == t.toSeq && u.toAsset == t.toAsset && u.data.Keys == t.data.Keys
  }

  lemma RowRewritten(t: BitAssets.Tables, id: BitAssetId, d: BitAssets.AssetData)
    requires id in t.data
    ensures SameNumbers(t, t.(data := t.data[id := d]))
  {
    assert t.data[id := d].Keys == t.data.Keys;
  }

  lemma MintKeepsNumbers(t: BitAssets.Tables, id: BitAssetId, amount: nat, txid: Txid, height: nat)
    ensures BitAssets.Mint(t, id, amount, txid, height).Ok? ==>
            SameNumbers(t, BitAssets.Mint(t, id, amount, txid, height).value)
    ensures BitAssets.RevertMint(t, id, amount).Ok? ==> SameNumbers(t, BitAssets.RevertMint(t, id, amount).value)
  {
    if BitAssets.Mint(t, id, amount, txid, height).Ok? {
      RowRewritten(t, id, BitAssets.Mint(t, id, amount, txid, height).value.data[id]);
    }
    if BitAssets.RevertMint(t, id, amount).Ok? {
      RowRewritten(t, id, BitAssets.RevertMint(t, id, amount).value.data[id]);
    }
  }

  lemma UpdateKeepsNumbers(t: BitAssets.Tables, id: BitAssetId, u: BitAssets.Updates, txid: Txid, height: nat)
    ensures BitAssets.UpdateData(t, id, u, txid, height).Ok? ==>
            SameNumbers(t, BitAssets.UpdateData(t, id, u, txid, height).value)
    ensures BitAssets.RevertUpdate(t, id, u, txid, height).Ok? ==>
              SameNumbers(t, BitAssets.RevertUpdate(t, id, u, txid, height).value)
  {
    if id in t.data {
      RowRewritten(t, id, t.data[id].ApplyUpdates(u, txid, height));
      if t.data[id].RevertUpdates(u, txid, height).Ok? {
        RowRewritten(t, id, t.data[id].RevertUpdates(u, txid, height).value);
      }
    }
  }

  /** Nothing but a registration touches the number tables. */
  lemma NumbersUntouched(hash: KeyedHash, e: Effects, f: FilledTransaction, height: nat)
    requires Registers(f.tx).None? && Apply(hash, e, f, height).Ok?
    ensures SameNumbers(e.assets, Apply(hash, e, f, height).value.assets)
  {
    if f.tx.data.Some? {
      match f.tx.data.value
      case BitAssetMint(amount) => MintKeepsNumbers(e.assets, f.LastControl().value, amount, f.tx.txid, height);
      case BitAssetUpdate(updates) => UpdateKeepsNumbers(e.assets, f.LastBitAsset().value, updates, f.tx.txid, height);
      case _ =>
    }
  }

  lemma NumbersUntouchedBack(hash: KeyedHash, e: Effects, f: FilledTransaction, height: nat)
    requires Registers(f.tx).None? && Revert(hash, e, f, height).Ok?
    ensures SameNumbers(e.assets, Revert(hash, e, f, height).value.assets)
  {
    if f.tx.data.Some? {
      match f.tx.data.value
      case BitAssetMint(amount) => MintKeepsNumbers(e.assets, f.LastControl().value, amount, f.tx.txid, height);
      case BitAssetUpdate(updates) => UpdateKeepsNumbers(e.assets, f.LastBitAsset().value, updates, f.tx.txid, height);
      case _ =>
    }
  }

  /** The number tables grow with the registrations, as far as those are of new assets at free numbers. */
  lemma NumbersGrow(hash: KeyedHash, t: BitAssets.Tables, r: BitAssets.Registrations, e: Effects, f: FilledTransaction,
                    height: nat)
    requires BitAssets.Grown(t, e.assets, r) && Apply(hash, e, f, height).Ok?
    ensures BitAssets.Grown(t, Apply(hash, e, f, height).value.assets, r.Plus(RegisteredBy(f.tx)))
  {
    if Registers(f.tx).Some? {
      var d := f.tx.data.value;
      BitAssets.RegisterGrows(t, e.assets, r, BitAssetId(d.nameHash), f.SpentReservations(),
                              hash(d.revealedNonce, d.nameHash), d.initial, d.initialSupply, f.tx.txid, height);
    } else {
      NumbersUntouched(hash, e, f, height);
      BitAssets.GrownOther(t, e.assets, Apply(hash, e, f, height).value.assets, r);
    }
  }

  /** Every reverted registration takes a row off both number tables. */
  lemma NumbersShrink(hash: KeyedHash, e: Effects, f: FilledTransaction, height: nat)
    requires Revert(hash, e, f, height).Ok?
    ensures var back := Revert(hash, e, f, height).value.assets;
            && |e.assets.toSeq| == |back.toSeq| + RegisteredBy(f.tx).Count()
            && |e.assets.toAsset| == |back.toAsset| + RegisteredBy(f.tx).Count()
  {
    if Registers(f.tx).Some? {
      var d := f.tx.data.value;
      BitAssets.RevertRegisterSizes(e.assets, BitAssetId(d.nameHash), f.SpentReservations(),
                                    hash(d.revealedNonce, d.nameHash));
    } else {
      NumbersUntouchedBack(hash, e, f, height);
    }
  }
}
