/**
 What each of the ten kinds of transaction does to pools, auctions and registered
 assets, table by table and amount by amount.
 */
module EffectsMeaning {
  import opened Wrappers
  import opened Arith
  import opened ChainTypes
  import opened Transactions
  import opened Effects
  import Amm
  import DutchAuction
  import BitAssets
  import Rollback

  // ---- what a transaction names by what it spends ----

  /** The pair is that of the first liquidity token spent. */
  lemma {:induction false} FirstLpTokenIs(spent: seq<FilledOutput>, i: nat)
    requires i < |spent| && spent[i].content.FilledLpToken? && forall j | 0 <= j < i :: !spent[j].content.FilledLpToken?
    ensures FirstLpTokenIn(spent) == Some((spent[i].content.asset0, spent[i].content.asset1))
    decreases i
  {
    if i > 0 {
      assert !spent[0].content.FilledLpToken?;
      FirstLpTokenIs(spent[1..], i - 1);
    }
  }

  /** The auction is that of the first receipt spent. */
  lemma {:induction false} FirstReceiptIs(spent: seq<FilledOutput>, i: nat)
    requires i < |spent| && spent[i].content.FilledReceipt? && forall j | 0 <= j < i :: !spent[j].content.FilledReceipt?
    ensures FirstReceiptIn(spent) == Some(spent[i].content.auction)
    decreases i
  {
    if i > 0 {
      assert !spent[0].content.FilledReceipt?;
      FirstReceiptIs(spent[1..], i - 1);
    }
  }

  /** The asset that is updated is the last one spent. */
  lemma {:induction false} LastBitAssetIs(spent: seq<FilledOutput>, i: nat)
    requires i < |spent| && spent[i].content.FilledBitAsset? && forall j | i < j < |spent| ::
             !spent[j].content.FilledBitAsset?
    ensures LastBitAssetIn(spent) == Some(spent[i].content.asset)
    decreases |spent|
  {
    if i < |spent| - 1 {
      assert !spent[|spent| - 1].content.FilledBitAsset?;
      LastBitAssetIs(spent[..|spent| - 1], i);
    }
  }

  /** The asset that is minted is that of the last control coin spent. */
  lemma {:induction false} LastControlIs(spent: seq<FilledOutput>, i: nat)
    requires i < |spent| && spent[i].content.FilledControl? && forall j | i < j < |spent| ::
             !spent[j].content.FilledControl?
    ensures LastControlIn(spent) == Some(spent[i].content.controlled)
    decreases |spent|
  {
    if i < |spent| - 1 {
      assert !spent[|spent| - 1].content.FilledControl?;
      LastControlIs(spent[..|spent| - 1], i);
    }
  }

  /** The assets spent, each once: those of bitcoin, asset and control outputs. */
  lemma {:induction false} AssetsAre(spent: seq<FilledOutput>, a: AssetId)
    ensures a in UniqueAssets(spent) <==> exists i :: 0 <= i < |spent| && AssetOf(spent[i].content) == Some(a)
  {
    if spent != [] {
      var before := spent[..|spent| - 1];
      AssetsAre(before, a);
      if i :| 0 <= i < |spent| && AssetOf(spent[i].content) == Some(a) {
        assert i < |before| ==> before[i] == spent[i];
      }
      if i :| 0 <= i < |before| && AssetOf(before[i].content) == Some(a) {
        assert spent[i] == before[i];
      }
      assert AssetOf(spent[|spent| - 1].content) == Some(a) ==> a in UniqueAssets(spent);
    }
  }

  /** They are listed in the order in which they first occur. */
  lemma {:induction false} AssetsInOrder(spent: seq<FilledOutput>, i: nat)
    requires i <= |spent|
    ensures UniqueAssets(spent[..i]) <= UniqueAssets(spent)
    decreases |spent| - i
  {
    if i < |spent| {
      assert spent[..i + 1][..i] == spent[..i];
      AssetsInOrder(spent, i + 1);
    } else {
      assert spent[..i] == spent;
    }
  }

  /** A pair lists the two assets in order, whichever is named first. */
  lemma PairIs(a: AssetId, b: AssetId)
    ensures PairOf(a, b) == PairOf(b, a) && PairOf(a, b) in {AmmPair(a, b), AmmPair(b, a)}
    ensures !AssetLess(PairOf(a, b).asset1, PairOf(a, b).asset0)
  {
    AssetOrderTotal(a, b);
  }

  // ---- pools ----

  /** Only the pool at `pair` changes; it becomes `q`. */
  ghost predicate SetsPool(e: Effects, d: Effects, pair: AmmPair, q: Amm.PoolState) {
    d == e.(pools := e.pools[pair := q])
  }

  /**
   A burn takes the named amounts and tokens out of the pool of the first
   liquidity token spent; it applies exactly if they are the integer parts of the
   burned share of each reserve and no more tokens are burned than exist.
   */
  lemma BurnDoes(hash: KeyedHash, e: Effects, f: FilledTransaction, height: nat, a: AssetId, b: AssetId)
    requires PoolsSound(e.pools) && f.tx.data.Some? && f.tx.data.value.AmmBurn? && f.FirstLpToken() == Some((a, b))
    ensures var d, r := f.tx.data.value, Apply(hash, e, f, height);
            r.Ok? <==>
            && PairOf(a, b) in e.pools
            && var p := e.pools[PairOf(a, b)];
            && 0 < p.lpTokens && d.lpTokenBurn <= p.lpTokens
            && d.burnAmount0 == p.reserve0 * d.lpTokenBurn / p.lpTokens
            && d.burnAmount1 == p.reserve1 * d.lpTokenBurn / p.lpTokens
    ensures var d, r := f.tx.data.value, Apply(hash, e, f, height);
            r.Ok? ==>
            && var p := e.pools[PairOf(a, b)];
            && d.burnAmount0 <= p.reserve0 && d.burnAmount1 <= p.reserve1
            && SetsPool(e, r.value, PairOf(a, b),
                        Amm.PoolState(p.reserve0 - d.burnAmount0, p.reserve1 - d.burnAmount1,
                                      p.lpTokens - d.lpTokenBurn, p.creationTxid))
  {
    var d := f.tx.data.value;
    if PairOf(a, b) in e.pools {
      BurnPoolDoes(e.pools[PairOf(a, b)], d.lpTokenBurn);
    }
  }

  lemma BurnPoolDoes(p: Amm.PoolState, burn: nat)
    requires p.Solvent()
    ensures p.Burn(burn).Ok? <==> 0 < p.lpTokens && burn <= p.lpTokens
    ensures p.Burn(burn).Ok? ==>
              && p.Burn(burn).value.lpTokens == p.lpTokens - burn && p.Burn(burn).value.creationTxid == p.creationTxid
              && p.reserve0 - p.Burn(burn).value.reserve0 == p.reserve0 * burn / p.lpTokens
              && p.reserve1 - p.Burn(burn).value.reserve1 == p.reserve1 * burn / p.lpTokens
  {
    Amm.BurnKeepsSolvent(p, burn);
    if p.Burn(burn).Ok? {
      Amm.BurnDivides(p, burn);
    }
  }

  /**
   A mint adds the named amounts to the pool of the first two assets spent, or to
   a new pool, and the named tokens, which must be those that the pool mints.
   */
  lemma MintDoes(hash: KeyedHash, e: Effects, f: FilledTransaction, height: nat, a: AssetId, b: AssetId,
                 p: Amm.PoolState)
    requires f.tx.data.Some? && f.tx.data.value.AmmMint? && |f.UniqueSpentAssets()| >= 2
    requires f.UniqueSpentAssets()[..2] == [a, b]
    requires p == if PairOf(a, b) in e.pools then e.pools[PairOf(a, b)] else Amm.PoolState(0, 0, 0, f.tx.txid)
    ensures var d, r := f.tx.data.value, Apply(hash, e, f, height);
            r.Ok? <==> && p.Mint(d.mintAmount0, d.mintAmount1).Ok?
                       && p.Mint(d.mintAmount0, d.mintAmount1).value.lpTokens == p.lpTokens + d.lpTokenMint
    ensures var d, r := f.tx.data.value, Apply(hash, e, f, height);
            r.Ok? ==> SetsPool(e, r.value, PairOf(a, b),
                               Amm.PoolState(p.reserve0 + d.mintAmount0, p.reserve1 + d.mintAmount1,
                                             p.lpTokens + d.lpTokenMint, p.creationTxid))
  {
    assert f.UniqueSpentAssets()[0] == f.UniqueSpentAssets()[..2][0] == a;
    assert f.UniqueSpentAssets()[1] == f.UniqueSpentAssets()[..2][1] == b;
  }

  /** A pool with these reserves takes `spent` and pays exactly `received`. */
  ghost predicate Pays(spend: nat, receive: nat, spent: nat, received: nat) {
    && received <= receive
    && Amm.SwapReserves(spend, receive, spent) == Ok(Amm.Reserves(spend + spent, receive - received))
  }

  /**
   A swap applies exactly if what it receives is what the pool pays for what it
   spends; that is added to the reserve of the first asset spent and taken out of
   the other.
   */
  lemma SwapDoes(hash: KeyedHash, e: Effects, f: FilledTransaction, height: nat, a: AssetId)
    requires f.tx.data.Some? && f.tx.data.value.AmmSwap? && f.FirstSpentAsset() == Some(a)
    ensures var d, pair := f.tx.data.value, PairOf(a, f.tx.data.value.pairAsset);
            Apply(hash, e, f, height).Ok? <==>
            && pair in e.pools
            && var p := e.pools[pair];
            if AssetLess(a, d.pairAsset) then Pays(p.reserve0, p.reserve1, d.amountSpent, d.amountReceive)
            else Pays(p.reserve1, p.reserve0, d.amountSpent, d.amountReceive)
    ensures var d, r := f.tx.data.value, Apply(hash, e, f, height);
            var pair := PairOf(a, d.pairAsset);
            r.Ok? ==>
              && var p := e.pools[pair];
              if AssetLess(a, d.pairAsset) then
                && d.amountReceive <= p.reserve1
                && SetsPool(e, r.value, pair, p.(reserve0 := p.reserve0 + d.amountSpent,
                                                 reserve1 := p.reserve1 - d.amountReceive))
              else
                && d.amountReceive <= p.reserve0
                && SetsPool(e, r.value, pair, p.(reserve0 := p.reserve0 - d.amountReceive,
                                                 reserve1 := p.reserve1 + d.amountSpent))
  {
  }

  // ---- registered assets ----

  /** A reservation stores its commitment under the transaction's id. */
  lemma ReservationDoes(hash: KeyedHash, e: Effects, f: FilledTransaction, height: nat)
    requires f.tx.data.Some? && f.tx.data.value.BitAssetReservation?
    ensures var reservations := e.assets.reservations[f.tx.txid := f.tx.data.value.commitment];
            Apply(hash, e, f, height) == Ok(e.(assets := e.assets.(reservations := reservations)))
  {
  }

  /** A value is what a history holds, written once, by `txid` at `height`. */
  ghost predicate Started<T>(h: Rollback.RollBack<T>, v: T, txid: Txid, height: nat) {
    h.rest == [] && h.first == Rollback.Stamped(v, txid, height)
  }

  /**
   A registration burns the first spent reservation of the implied commitment,
   numbers the asset, and starts a history of each field and of the supply.
   */
  lemma RegistrationDoes(hash: KeyedHash, e: Effects, f: FilledTransaction, height: nat)
    requires f.tx.data.Some? && f.tx.data.value.BitAssetRegistration?
    ensures Apply(hash, e, f, height).Ok? <==>
            && BitAssets.NextSeq(e.assets) < U32_LIMIT
            && exists i: nat :: Burns(f.spent, hash(f.tx.data.value.revealedNonce, f.tx.data.value.nameHash), i)
                                && f.spent[i].content.txid in e.assets.reservations
    ensures Apply(hash, e, f, height).Ok? ==>
            var d, r, t := f.tx.data.value, Apply(hash, e, f, height).value.assets, e.assets;
            var id, n := BitAssetId(d.nameHash), BitAssets.NextSeq(e.assets);
            && Apply(hash, e, f, height).value == e.(assets := r)
            && r.toSeq == t.toSeq[id := n] && r.toAsset == t.toAsset[n := id]
            && id in r.data && r.data == t.data[id := r.data[id]]
            && Started(r.data[id].totalSupply, d.initialSupply, f.tx.txid, height)
            && Started(r.data[id].commitment, d.initial.commitment, f.tx.txid, height)
            && Started(r.data[id].socketV4, d.initial.socketV4, f.tx.txid, height)
            && Started(r.data[id].socketV6, d.initial.socketV6, f.tx.txid, height)
            && Started(r.data[id].encryptionKey, d.initial.encryptionKey, f.tx.txid, height)
            && Started(r.data[id].signingKey, d.initial.signingKey, f.tx.txid, height)
    ensures Apply(hash, e, f, height).Ok? ==>
            var d, r, t := f.tx.data.value, Apply(hash, e, f, height).value.assets, e.assets;
            exists i: nat :: Burns(f.spent, hash(d.revealedNonce, d.nameHash), i)
                             && r.reservations == t.reservations - {f.spent[i].content.txid}
  {
    var implied := hash(f.tx.data.value.revealedNonce, f.tx.data.value.nameHash);
    if BitAssets.FindReservation(f.SpentReservations(), implied).Some? {
      var i := FirstBurned(f.spent, implied);
      BurnedIs(f.spent, implied, i);
    }
    forall i: nat | Burns(f.spent, implied, i)
      ensures BitAssets.FindReservation(f.SpentReservations(), implied) == Some(f.spent[i].content.txid)
    {
      BurnedIs(f.spent, implied, i);
    }
  }

  ghost predicate Reserves(o: FilledOutput, commitment: int) {
    o.content.FilledReservation? && o.content.commitment == commitment
  }

  /** Spent output `i` is the first that reserves the commitment. */
  ghost predicate Burns(spent: seq<FilledOutput>, commitment: int, i: nat) {
    i < |spent| && Reserves(spent[i], commitment) && forall j | 0 <= j < i :: !Reserves(spent[j], commitment)
  }

  lemma {:induction false} BurnedIs(spent: seq<FilledOutput>, commitment: int, i: nat)
    requires Burns(spent, commitment, i)
    ensures BitAssets.FindReservation(ReservationsIn(spent), commitment) == Some(spent[i].content.txid)
    decreases i
  {
    var rest := ReservationsIn(spent[1..]);
    if i > 0 {
      assert !Reserves(spent[0], commitment);
      BurnedIs(spent[1..], commitment, i - 1);
    }
    if spent[0].content.FilledReservation? {
      assert ReservationsIn(spent)[1..] == rest;
    }
  }

  lemma {:induction false} FirstBurned(spent: seq<FilledOutput>, commitment: int) returns (i: nat)
    requires BitAssets.FindReservation(ReservationsIn(spent), commitment).Some?
    ensures Burns(spent, commitment, i)
  {
    if Reserves(spent[0], commitment) {
      i := 0;
    } else {
      if spent[0].content.FilledReservation? {
        assert ReservationsIn(spent)[1..] == ReservationsIn(spent[1..]);
      }
      i := FirstBurned(spent[1..], commitment);
      assert forall j | 0 < j < i + 1 :: spent[j] == spent[1..][j - 1];
      i := i + 1;
    }
  }

  /** A history gains one value, written by `txid` at `height`. */
  ghost predicate Gains<T>(h: Rollback.RollBack<T>, g: Rollback.RollBack<T>, v: T, txid: Txid, height: nat) {
    g.first == h.first && g.rest == h.rest + [Rollback.Stamped(v, txid, height)]
  }

  /** A mint of an asset adds its amount to the supply of the asset of the last control coin spent, if the sum fits. */
  lemma AssetMintDoes(hash: KeyedHash, e: Effects, f: FilledTransaction, height: nat, id: BitAssetId)
    requires f.tx.data.Some? && f.tx.data.value.BitAssetMint? && f.LastControl() == Some(id)
    ensures var d, r := f.tx.data.value, Apply(hash, e, f, height);
            r.Ok? <==> id in e.assets.data && e.assets.data[id].Supply() + d.mintAmount < U64_LIMIT
    ensures var d, r := f.tx.data.value, Apply(hash, e, f, height);
            r.Ok? ==>
              && id in r.value.assets.data
              && var g := r.value.assets.data[id];
              && r.value == e.(assets := e.assets.(data := e.assets.data[id := g]))
              && g == e.assets.data[id].(totalSupply := g.totalSupply)
              && Gains(e.assets.data[id].totalSupply, g.totalSupply, e.assets.data[id].Supply() + d.mintAmount,
                       f.tx.txid, height)
  {
  }

  /** A field keeps its history, or gains the value that the update says. */
  ghost predicate FieldUpdated(h: BitAssets.Field, g: BitAssets.Field, u: BitAssets.Update, txid: Txid, height: nat) {
    match u
    case Retain => g == h
    case Delete => Gains(h, g, None, txid, height)
    case Set(v) => Gains(h, g, Some(v), txid, height)
  }

  /** An update changes each field of the last asset spent as it says, and leaves the supply. */
  lemma UpdateDoes(hash: KeyedHash, e: Effects, f: FilledTransaction, height: nat, id: BitAssetId)
    requires f.tx.data.Some? && f.tx.data.value.BitAssetUpdate? && f.LastBitAsset() == Some(id)
    ensures Apply(hash, e, f, height).Ok? <==> id in e.assets.data
    ensures var u, r := f.tx.data.value.updates, Apply(hash, e, f, height);
            r.Ok? ==>
              && id in r.value.assets.data
              && var h, g := e.assets.data[id], r.value.assets.data[id];
              && r.value == e.(assets := e.assets.(data := e.assets.data[id := g]))
              && FieldUpdated(h.commitment, g.commitment, u.commitment, f.tx.txid, height)
              && FieldUpdated(h.socketV4, g.socketV4, u.socketV4, f.tx.txid, height)
              && FieldUpdated(h.socketV6, g.socketV6, u.socketV6, f.tx.txid, height)
              && FieldUpdated(h.encryptionKey, g.encryptionKey, u.encryptionKey, f.tx.txid, height)
              && FieldUpdated(h.signingKey, g.signingKey, u.signingKey, f.tx.txid, height)
              && g.totalSupply == h.totalSupply
  {
  }

  // ---- auctions ----

  /**
   A bid pays its size to the named auction, which must sell for the first asset
   spent, and takes the named quantity of the received asset out of it, which
   must be what the size buys.
   */
  lemma BidDoes(hash: KeyedHash, e: Effects, f: FilledTransaction, height: nat, spend: AssetId)
    requires f.tx.data.Some? && f.tx.data.value.DutchAuctionBid? && f.FirstSpentAsset() == Some(spend)
    requires var d := f.tx.data.value; d.auctionId in e.auctions ==>
               e.auctions[d.auctionId].Sound() && e.auctions[d.auctionId].LastBid() <= height
    ensures var d, r := f.tx.data.value, Apply(hash, e, f, height);
            r.Ok? <==>
            && d.auctionId in e.auctions
            && var a := e.auctions[d.auctionId];
            && d.receiveAsset == a.baseAsset && spend == a.quoteAsset
            && a.Bid(f.tx.txid, d.bidSize, height).Ok?
            && DutchAuction.Line(a, height) > 0
            && d.quantity == (d.bidSize * a.Base() + DutchAuction.Line(a, height) - 1) / DutchAuction.Line(a, height)
    ensures var d, r := f.tx.data.value, Apply(hash, e, f, height);
            r.Ok? ==>
              && d.auctionId in r.value.auctions
              && var a, b := e.auctions[d.auctionId], r.value.auctions[d.auctionId];
              && r.value == e.(auctions := e.auctions[d.auctionId := b])
              && b.Quote() == a.Quote() + d.bidSize && b.Base() == a.Base() - d.quantity && b.LastBid() == height
              && b.Price() == DutchAuction.Line(a, height) - d.bidSize
  {
    var d := f.tx.data.value;
    if d.auctionId in e.auctions {
      var a := e.auctions[d.auctionId];
      if a.Bid(f.tx.txid, d.bidSize, height).Ok? {
        var b := a.Bid(f.tx.txid, d.bidSize, height).value;
        DutchAuction.BidKeepsSound(a, f.tx.txid, d.bidSize, height);
        DutchAuction.BidFills(a, f.tx.txid, d.bidSize, height, DutchAuction.Line(a, height), a.Base() - b.Base());
      }
    }
  }

  /**
   A creation stores an auction with the given parameters, unsold and at its
   initial price, if they are admissible.
   */
  lemma CreateDoes(hash: KeyedHash, e: Effects, f: FilledTransaction, height: nat)
    requires f.tx.data.Some? && f.tx.data.value.DutchAuctionCreate?
    ensures var p, r := f.tx.data.value.params, Apply(hash, e, f, height);
            r.Ok? <==> height < p.startBlock && p.finalPrice <= p.initialPrice && 0 < p.duration
                       && (p.duration == 1 ==> p.finalPrice == p.initialPrice)
    ensures var p, r := f.tx.data.value.params, Apply(hash, e, f, height);
            r.Ok? ==>
              && f.tx.txid in r.value.auctions
              && var a := r.value.auctions[f.tx.txid];
              && r.value == e.(auctions := e.auctions[f.tx.txid := a])
              && a.startBlock == p.startBlock && a.duration == p.duration
              && a.baseAsset == p.baseAsset && a.quoteAsset == p.quoteAsset
              && a.initialBaseAmount == a.Base() == p.baseAmount && a.Quote() == 0
              && a.initialPrice == a.Price() == p.initialPrice && a.initialEndPrice == a.EndPrice() == p.finalPrice
              && a.LastBid() == p.startBlock
  {
  }

  /**
   A collect empties both sides of the auction of the first receipt spent; it
   applies exactly if the auction is over and its assets and amounts are named.
   */
  lemma CollectDoes(hash: KeyedHash, e: Effects, f: FilledTransaction, height: nat, id: Txid)
    requires f.tx.data.Some? && f.tx.data.value.DutchAuctionCollect? && f.FirstReceipt() == Some(id)
    ensures var d, r := f.tx.data.value, Apply(hash, e, f, height);
            r.Ok? <==>
            && id in e.auctions
            && var a := e.auctions[id];
            && d.assetOffered == a.baseAsset && d.assetReceive == a.quoteAsset
            && (a.startBlock + a.duration <= height || U32_LIMIT - 1 <= height)
            && d.offeredRemaining == a.Base() && d.received == a.Quote()
    ensures var r := Apply(hash, e, f, height);
            r.Ok? ==>
              && id in r.value.auctions
              && var a, b := e.auctions[id], r.value.auctions[id];
              && r.value == e.(auctions := e.auctions[id := b]) && b.Base() == 0 && b.Quote() == 0
              && b == a.(baseAmountRemaining := b.baseAmountRemaining, quoteAmount := b.quoteAmount)
  {
  }
}
