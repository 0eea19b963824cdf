/**
 Dutch auctions: the price falls linearly from its value after the last bid to
 the end price, and each bid is filled at the current price. Heights are `u32`
 and amounts `u64`; an operation that would panic is the error `Panic`.
 */
module DutchAuction {
  import opened Wrappers
  import opened Arith
  import opened ChainTypes
  import opened Rollback

  datatype Error =
    | AuctionNotStarted | AuctionEnded | InvalidPrice | QuantityTooLarge
    | Expired | FinalPrice | ZeroDuration | PriceMismatch
    | InvalidTxData | MissingAuction | IncorrectReceiveAsset | IncorrectSpendAsset | IncorrectOfferedAsset
    | AuctionNotFinished | IncorrectOfferedAssetAmount | IncorrectReceiveAssetAmount
    | Missing | Revert
    | Panic

  datatype Params = Params(
    startBlock: nat, duration: nat, baseAsset: AssetId, baseAmount: nat,
    quoteAsset: AssetId, initialPrice: nat, finalPrice: nat)

  datatype Auction = Auction(
    startBlock: nat,
    mostRecentBidBlock: RollBack<nat>,
    duration: nat,
    baseAsset: AssetId,
    initialBaseAmount: nat,
    baseAmountRemaining: RollBack<nat>,
    quoteAsset: AssetId,
    quoteAmount: RollBack<nat>,
    initialPrice: nat,
    priceAfterMostRecentBid: RollBack<nat>,
    initialEndPrice: nat,
    endPriceAfterMostRecentBid: RollBack<nat>)
  {
    // Latest values.
    function LastBid(): nat { mostRecentBidBlock.Latest().data }
    function Base(): nat { baseAmountRemaining.Latest().data }
    function Quote(): nat { quoteAmount.Latest().data }
    function Price(): nat { priceAfterMostRecentBid.Latest().data }
    function EndPrice(): nat { endPriceAfterMostRecentBid.Latest().data }

    /** Last block of the auction, saturating at the largest height. */
    function EndBlock(): int {
      Min(startBlock + duration - 1, U32_LIMIT - 1)
    }

    /** The price at `height`; an error where the computation would panic. */
    function PriceAt(height: nat): Result<nat, Error> {
      if height < LastBid() || EndBlock() < LastBid() then Err(Panic)
      else
        var remaining := EndBlock() - LastBid();
        if remaining == 0 then Ok(Price())
        else if Price() < EndPrice() then Err(Panic)
        else
          var decrease := Share(Price() - EndPrice(), height - LastBid(), remaining);
          if Quotient(height - LastBid(), remaining) >= 1 || decrease > Price() then Err(Panic)
          else Ok(Price() - decrease)
    }

    /** The auction after a bid of `amount` in the block at `height`. */
    function Bid(txid: Txid, amount: nat, height: nat): Result<Auction, Error> {
      if height < startBlock then Err(AuctionNotStarted)
      else if height < LastBid() || duration == 0 then Err(Panic)
      else if height > EndBlock() || Base() == 0 then Err(AuctionEnded)
      else
        var price :- PriceAt(height);
        if price == 0 then Err(InvalidPrice)
        else
          var quantity := DivCeil(amount * Base(), price);
          if quantity > Base() then Err(QuantityTooLarge)
          else
            var newBase := Base() - quantity;
            var newEndPrice := DivCeil(EndPrice() * newBase, Base());
            if Quote() + amount >= U64_LIMIT || price < amount then Err(Panic)
            else
              Ok(this.(mostRecentBidBlock := mostRecentBidBlock.Push(height, txid, height),
                       baseAmountRemaining := baseAmountRemaining.Push(newBase, txid, height),
                       quoteAmount := quoteAmount.Push(Quote() + amount, txid, height),
                       priceAfterMostRecentBid := priceAfterMostRecentBid.Push(price - amount, txid, height),
                       endPriceAfterMostRecentBid := endPriceAfterMostRecentBid.Push(newEndPrice, txid, height)))
    }

    /** The auction before its most recent bid, which `txid` must have made. */
    function RevertBid(txid: Txid): Result<Auction, Error> {
      if WrittenBy(mostRecentBidBlock, txid) && WrittenBy(baseAmountRemaining, txid) && WrittenBy(quoteAmount, txid)
         && WrittenBy(priceAfterMostRecentBid, txid) && WrittenBy(endPriceAfterMostRecentBid, txid)
      then Ok(this.(mostRecentBidBlock := mostRecentBidBlock.Pop().0,
                    baseAmountRemaining := baseAmountRemaining.Pop().0,
                    quoteAmount := quoteAmount.Pop().0,
                    priceAfterMostRecentBid := priceAfterMostRecentBid.Pop().0,
                    endPriceAfterMostRecentBid := endPriceAfterMostRecentBid.Pop().0))
      else Err(Panic)
    }

    /** Hand out what is left and what was received, once the auction is over. */
    function Collect(txid: Txid, remaining: nat, received: nat, height: nat): Result<Auction, Error> {
      if height < Min(startBlock + duration, U32_LIMIT - 1) then Err(AuctionNotFinished)
      else if remaining != Base() then Err(IncorrectOfferedAssetAmount)
      else if received != Quote() then Err(IncorrectReceiveAssetAmount)
      else Ok(this.(baseAmountRemaining := baseAmountRemaining.Push(0, txid, height),
                    quoteAmount := quoteAmount.Push(0, txid, height)))
    }

    function RevertCollect(txid: Txid, remaining: nat, received: nat): Result<Auction, Error> {
      var base := baseAmountRemaining.Pop();
      var quote := quoteAmount.Pop();
      if && base.1.Some? && base.1.value.txid == txid && base.1.value.data == 0 && base.0.Latest().data == remaining
         && quote.1.Some? && quote.1.value.txid == txid && quote.1.value.data == 0 && quote.0.Latest().data == received
      then Ok(this.(baseAmountRemaining := base.0, quoteAmount := quote.0))
      else Err(Panic)
    }

    /** What every bid keeps. */
    predicate Sound() {
      && 1 <= duration && startBlock < U32_LIMIT
      && startBlock <= LastBid() <= EndBlock()
      && EndPrice() <= Price()
      && Quote() + Price() <= initialPrice < U64_LIMIT
      && Base() <= initialBaseAmount < U64_LIMIT
    }
  }

  predicate WrittenBy<T>(h: RollBack<T>, txid: Txid) {
    h.Pop().1.Some? && h.Pop().1.value.txid == txid
  }

  /** A new auction; it must start in the future. */
  function Create(p: Params, txid: Txid, height: nat): Result<Auction, Error> {
    if height >= p.startBlock then Err(Expired)
    else if p.finalPrice > p.initialPrice then Err(FinalPrice)
    else if p.duration == 0 then Err(ZeroDuration)
    else if p.duration == 1 && p.finalPrice != p.initialPrice then Err(PriceMismatch)
    else Ok(Auction(p.startBlock, NewRollBack(p.startBlock, txid, height), p.duration,
                    p.baseAsset, p.baseAmount, NewRollBack(p.baseAmount, txid, height),
                    p.quoteAsset, NewRollBack(0, txid, height),
                    p.initialPrice, NewRollBack(p.initialPrice, txid, height),
                    p.finalPrice, NewRollBack(p.finalPrice, txid, height)))
  }

  predicate ParamsInRange(p: Params) {
    && p.startBlock < U32_LIMIT && p.duration < U32_LIMIT
    && p.baseAmount < U64_LIMIT && p.initialPrice < U64_LIMIT && p.finalPrice < U64_LIMIT
  }

  lemma CreatedSound(p: Params, txid: Txid, height: nat)
    requires ParamsInRange(p) && Create(p, txid, height).Ok?
    ensures Create(p, txid, height).value.Sound()
  {
  }

  // ---- price ----

  lemma RatioBelowOne(a: nat, b: nat)
    requires b > 0
    ensures Quotient(a, b) >= 1 <==> a >= b
  {
  }

  /** Linear decay stays between the end price and the price after the last bid. */
  lemma DecayBounds(range: nat, elapsed: nat, remaining: nat)
    requires remaining > 0 && elapsed <= remaining
    ensures Share(range, elapsed, remaining) <= range
  {
    DivBounds(range * elapsed, remaining);
    MulMono(range, range, elapsed, remaining);
    MulCancel(Share(range, elapsed, remaining), range, remaining);
  }

  /**
   In a sound auction the price is defined everywhere from the last bid to the
   end, except at the end block itself when the last bid was earlier, and it
   lies between the end price and the price after the last bid.
   */
  lemma PriceDefined(a: Auction, height: nat)
    requires a.Sound() && a.LastBid() <= height <= a.EndBlock()
    ensures a.PriceAt(height).Err? <==> height == a.EndBlock() && a.LastBid() < a.EndBlock()
    ensures a.PriceAt(height).Ok? ==> a.EndPrice() <= a.PriceAt(height).value <= a.Price()
  {
    var remaining := a.EndBlock() - a.LastBid();
    if remaining > 0 {
      RatioBelowOne(height - a.LastBid(), remaining);
      DecayBounds(a.Price() - a.EndPrice(), height - a.LastBid(), remaining);
    }
  }

  /** The price in plain arithmetic: a straight line from the last bid to the end of the auction, rounded up. */
  function Line(a: Auction, height: nat): int
    requires a.LastBid() <= height
  {
    if a.LastBid() >= a.EndBlock() then a.Price()
    else a.Price() - (a.Price() - a.EndPrice()) * (height - a.LastBid()) / (a.EndBlock() - a.LastBid())
  }

  /** Wherever a sound auction has a price, it lies on that line. */
  lemma PriceOnLine(a: Auction, height: nat)
    requires a.Sound() && a.PriceAt(height).Ok?
    ensures a.LastBid() <= height && a.PriceAt(height).value == Line(a, height)
  {
    if a.LastBid() < a.EndBlock() {
      ShareIsDivision(a.Price() - a.EndPrice(), height - a.LastBid(), a.EndBlock() - a.LastBid());
    }
  }

  /** The price never rises between bids, and begins at the price that the last bid left. */
  lemma PriceFalls(a: Auction, height: nat, later: nat)
    requires a.Sound() && a.LastBid() <= height <= later && a.PriceAt(height).Ok? && a.PriceAt(later).Ok?
    ensures a.PriceAt(later).value <= a.PriceAt(height).value
    ensures height == a.LastBid() ==> a.PriceAt(height).value == a.Price()
  {
    if a.LastBid() < a.EndBlock() {
      DecreaseRises(a.Price() - a.EndPrice(), height - a.LastBid(), later - a.LastBid(), a.EndBlock() - a.LastBid());
    }
  }

  lemma DecreaseRises(range: nat, elapsed: nat, longer: nat, remaining: nat)
    requires remaining > 0 && elapsed <= longer
    ensures Share(range, elapsed, remaining) <= Share(range, longer, remaining)
    ensures Share(range, 0, remaining) == 0
  {
    MulMono(range, range, elapsed, longer);
    QuotientMono(range * elapsed, range * longer, remaining);
  }

  // ---- one bid ----

  /** A bid above the price asks for more than everything that is left. */
  lemma BidWithinPrice(amount: nat, base: nat, price: nat)
    requires base > 0 && price > 0 && DivCeil(amount * base, price) <= base
    ensures amount <= price
    ensures price * (base - DivCeil(amount * base, price)) <= (price - amount) * base
  {
    var quantity := DivCeil(amount * base, price);
    DivCeilBounds(amount * base, price);
    MulMono(quantity, base, price, price);
    assert amount * base <= price * base;
    MulCancel(amount, price, base);
    assert price * (base - quantity) == price * base - quantity * price;
    assert (price - amount) * base == price * base - amount * base;
  }

  /** The scaled end price stays at or below what is left of the price. */
  lemma EndPriceWithinPrice(endPrice: nat, price: nat, left: nat, base: nat, newBase: nat)
    requires endPrice <= price && base > 0 && price * newBase <= left * base
    ensures DivCeil(endPrice * newBase, base) <= left
  {
    MulMono(endPrice, price, newBase, newBase);
    DivCeilBounds(endPrice * newBase, base);
    var e := DivCeil(endPrice * newBase, base);
    assert e * base < left * base + base == (left + 1) * base;
    if e > left {
      MulMono(left + 1, e, base, base);
    }
  }

  /** What an accepted bid does to a sound auction. */
  lemma BidKeepsSound(a: Auction, txid: Txid, amount: nat, height: nat)
    requires a.Sound() && a.Bid(txid, amount, height).Ok?
    ensures var b := a.Bid(txid, amount, height).value;
            && b.Sound() && b.LastBid() == height >= a.LastBid()
            && a.PriceAt(height).Ok? && a.EndPrice() <= a.PriceAt(height).value <= a.Price()
            && b.Quote() == a.Quote() + amount && b.Price() + amount == a.PriceAt(height).value
            && b.Base() <= a.Base()
            && b.initialPrice == a.initialPrice && b.initialBaseAmount == a.initialBaseAmount
            && a.PriceAt(height).value * b.Base() <= b.Price() * a.Base()
  {
    var b := a.Bid(txid, amount, height).value;
    PriceDefined(a, height);
    var price := a.PriceAt(height).value;
    BidWithinPrice(amount, a.Base(), price);
    EndPriceWithinPrice(a.EndPrice(), price, price - amount, a.Base(), b.Base());
  }

  /**
   An accepted bid is filled at the price on the line: it buys its share of the
   base that is left, rounded up, leaves the rest of the price, and scales the
   end price with the base, rounded up.
   */
  lemma BidFills(a: Auction, txid: Txid, amount: nat, height: nat, price: int, sold: int)
    requires a.Sound() && a.Bid(txid, amount, height).Ok?
    requires a.LastBid() <= height && price == Line(a, height)
    requires sold == a.Base() - a.Bid(txid, amount, height).value.Base()
    ensures price > 0 && a.Base() > 0
    ensures sold == (amount * a.Base() + price - 1) / price
    ensures var b := a.Bid(txid, amount, height).value;
            && b.Price() == price - amount && b.Quote() == a.Quote() + amount
            && b.EndPrice() == (a.EndPrice() * b.Base() + a.Base() - 1) / a.Base()
  {
    PriceOnLine(a, height);
    BidParts(a, txid, amount, height);
    RoundedUp(amount, a.Base(), price, sold);
    var b := a.Bid(txid, amount, height).value;
    RoundedUp(a.EndPrice(), b.Base(), a.Base(), b.EndPrice());
  }

  lemma RoundedUp(x: nat, y: nat, d: nat, q: nat)
    requires d > 0 && q == DivCeil(x * y, d)
    ensures q == (x * y + d - 1) / d
  {
    DivCeilIsDivision(x * y, d);
  }

  lemma BidParts(a: Auction, txid: Txid, amount: nat, height: nat)
    requires a.Bid(txid, amount, height).Ok?
    ensures a.PriceAt(height).Ok? && a.PriceAt(height).value > 0 && a.Base() > 0
    ensures var b := a.Bid(txid, amount, height).value;
            && a.Base() - b.Base() == DivCeil(amount * a.Base(), a.PriceAt(height).value)
            && b.EndPrice() == DivCeil(a.EndPrice() * b.Base(), a.Base())
            && b.Price() == a.PriceAt(height).value - amount && b.Quote() == a.Quote() + amount
  {
  }

  /** A bid asks for no more than is left exactly when it is at most the price. */
  lemma AffordableWithinBase(amount: nat, base: nat, price: nat)
    requires base > 0 && price > 0
    ensures DivCeil(amount * base, price) <= base <==> amount <= price
  {
    if DivCeil(amount * base, price) <= base {
      BidWithinPrice(amount, base, price);
    }
    if amount <= price {
      MulMono(amount, price, base, base);
      DivCeilBounds(amount * base, price);
      var q := DivCeil(amount * base, price);
      assert q * price < base * price + price == (base + 1) * price;
      if q > base {
        MulMono(base + 1, q, price, price);
      }
    }
  }

  /**
   A bid on a sound auction, not before the last one, is accepted exactly when
   base is left, the end is not reached (or was reached by the last bid), and
   the price on the line is positive and covers the amount.
   */
  lemma BidAccepted(a: Auction, txid: Txid, amount: nat, height: nat)
    requires a.Sound() && a.LastBid() <= height
    ensures a.Bid(txid, amount, height).Ok? <==>
            && a.Base() > 0 && (height < a.EndBlock() || height == a.EndBlock() == a.LastBid())
            && Line(a, height) > 0 && amount <= Line(a, height)
  {
    if height <= a.EndBlock() && a.Base() > 0 {
      PriceDefined(a, height);
      if a.PriceAt(height).Ok? {
        PriceOnLine(a, height);
        if a.PriceAt(height).value > 0 {
          AffordableWithinBase(amount, a.Base(), a.PriceAt(height).value);
        }
      }
    }
  }

  /**
   Nothing but the end-block assertion can panic: for a sound auction and a
   height not before the last bid, a bid panics exactly when it arrives in the
   end block of an unsold auction whose last bid was earlier.
   */
  lemma BidPanicsExactly(a: Auction, txid: Txid, amount: nat, height: nat)
    requires a.Sound() && a.LastBid() <= height
    ensures a.Bid(txid, amount, height) == Err(Panic) <==>
            height == a.EndBlock() && a.LastBid() < a.EndBlock() && a.Base() > 0
  {
    if height <= a.EndBlock() && a.Base() > 0 {
      PriceDefined(a, height);
      if a.PriceAt(height).Ok? && a.PriceAt(height).value > 0 {
        var price := a.PriceAt(height).value;
        if DivCeil(amount * a.Base(), price) <= a.Base() {
          BidWithinPrice(amount, a.Base(), price);
        }
      }
    }
  }

  /** Such a bid exists: an auction over two blocks, bid on in the second. */
  lemma EndBlockBidPanics(txid: Txid)
    ensures var p := Params(1, 2, Bitcoin, 10, Bitcoin, 100, 50);
            var a := Create(p, txid, 0);
            a.Ok? && a.value.Sound() && a.value.Bid(txid, 1, 2) == Err(Panic)
  {
    var a := Create(Params(1, 2, Bitcoin, 10, Bitcoin, 100, 50), txid, 0).value;
    BidPanicsExactly(a, txid, 1, 2);
  }

  // ---- runs of bids ----

  datatype BidRecord = BidRecord(txid: Txid, amount: nat, height: nat)

  function RunBids(a: Auction, bids: seq<BidRecord>): Result<Auction, Error>
    decreases |bids|
  {
    if bids == [] then Ok(a)
    else
      var b :- RunBids(a, bids[..|bids| - 1]);
      var last := bids[|bids| - 1];
      b.Bid(last.txid, last.amount, last.height)
  }

  /** Total spent by the bidders. */
  function Spent(bids: seq<BidRecord>): nat
    decreases |bids|
  {
    if bids == [] then 0 else Spent(bids[..|bids| - 1]) + bids[|bids| - 1].amount
  }

  /** Total base asset handed to the bidders. */
  function Sold(a: Auction, bids: seq<BidRecord>): int
    requires RunBids(a, bids).Ok?
    decreases |bids|
  {
    if bids == [] then 0
    else
      var last := bids[|bids| - 1];
      var b := RunBids(a, bids[..|bids| - 1]).value;
      assert b.PriceAt(last.height).Ok?;
      Sold(a, bids[..|bids| - 1]) + DivCeil(last.amount * b.Base(), b.PriceAt(last.height).value)
  }

  /**
   Over every run of accepted bids on a valid auction: it stays sound, so the
   price never drops below the end price and the quote received plus the price
   never exceeds the initial price; nothing is lost or created on either side.
   */
  lemma {:induction false} RunKeepsSound(p: Params, txid: Txid, height: nat, bids: seq<BidRecord>)
    requires ParamsInRange(p) && Create(p, txid, height).Ok?
    requires RunBids(Create(p, txid, height).value, bids).Ok?
    ensures var a := Create(p, txid, height).value;
            var b := RunBids(a, bids).value;
            && b.Sound() && b.initialPrice == p.initialPrice && b.initialBaseAmount == p.baseAmount
            && b.Quote() == Spent(bids) && b.Quote() + b.Price() <= p.initialPrice
            && Sold(a, bids) + b.Base() == p.baseAmount
    decreases |bids|
  {
    var a := Create(p, txid, height).value;
    CreatedSound(p, txid, height);
    if bids != [] {
      var before := bids[..|bids| - 1];
      var last := bids[|bids| - 1];
      RunKeepsSound(p, txid, height, before);
      BidKeepsSound(RunBids(a, before).value, last.txid, last.amount, last.height);
    }
  }

  lemma LastBidIsLatest(p: Params, txid: Txid, height: nat, bids: seq<BidRecord>)
    requires ParamsInRange(p) && Create(p, txid, height).Ok?
    requires RunBids(Create(p, txid, height).value, bids).Ok? && bids != []
    ensures var a := Create(p, txid, height).value;
            && RunBids(a, bids).value.LastBid() == bids[|bids| - 1].height
            && bids[|bids| - 1].height >= RunBids(a, bids[..|bids| - 1]).value.LastBid()
  {
    var a := Create(p, txid, height).value;
    var last := bids[|bids| - 1];
    RunKeepsSound(p, txid, height, bids[..|bids| - 1]);
    BidKeepsSound(RunBids(a, bids[..|bids| - 1]).value, last.txid, last.amount, last.height);
  }

  /** Accepted bids never go back in height. */
  lemma {:induction false} RunHeightsRise(p: Params, txid: Txid, height: nat, bids: seq<BidRecord>, i: nat)
    requires ParamsInRange(p) && Create(p, txid, height).Ok?
    requires RunBids(Create(p, txid, height).value, bids).Ok? && i < |bids|
    ensures p.startBlock <= bids[i].height <= RunBids(Create(p, txid, height).value, bids).value.LastBid()
    ensures forall j | i <= j < |bids| :: bids[i].height <= bids[j].height
    decreases |bids|
  {
    LastBidIsLatest(p, txid, height, bids);
    RunStartsLate(p, txid, height, bids);
    if i < |bids| - 1 {
      RunHeightsRise(p, txid, height, bids[..|bids| - 1], i);
    }
  }

  lemma RunStartsLate(p: Params, txid: Txid, height: nat, bids: seq<BidRecord>)
    requires Create(p, txid, height).Ok? && RunBids(Create(p, txid, height).value, bids).Ok? && bids != []
    ensures p.startBlock <= bids[|bids| - 1].height
  {
    RunKeepsParams(Create(p, txid, height).value, bids[..|bids| - 1]);
  }

  lemma {:induction false} RunKeepsParams(a: Auction, bids: seq<BidRecord>)
    requires RunBids(a, bids).Ok?
    ensures RunBids(a, bids).value.startBlock == a.startBlock && RunBids(a, bids).value.duration == a.duration
    decreases |bids|
  {
    if bids != [] {
      RunKeepsParams(a, bids[..|bids| - 1]);
    }
  }

  /** After the proceeds are collected no bid is accepted any more. */
  lemma NoBidAfterCollect(a: Auction, txid: Txid, remaining: nat, received: nat, height: nat,
                          later: Txid, amount: nat, laterHeight: nat)
    requires a.Collect(txid, remaining, received, height).Ok?
    ensures a.Collect(txid, remaining, received, height).value.Bid(later, amount, laterHeight).Err?
  {
    a.baseAmountRemaining.PopUndoesPush(0, txid, height);
  }

  // ---- reverting ----

  lemma RevertBidUndoes(a: Auction, txid: Txid, amount: nat, height: nat)
    requires a.Bid(txid, amount, height).Ok?
    ensures a.Bid(txid, amount, height).value.RevertBid(txid) == Ok(a)
  {
    var b := a.Bid(txid, amount, height).value;
    a.mostRecentBidBlock.PopUndoesPush(b.mostRecentBidBlock.Latest().data, txid, height);
    a.baseAmountRemaining.PopUndoesPush(b.Base(), txid, height);
    a.quoteAmount.PopUndoesPush(b.Quote(), txid, height);
    a.priceAfterMostRecentBid.PopUndoesPush(b.Price(), txid, height);
    a.endPriceAfterMostRecentBid.PopUndoesPush(b.EndPrice(), txid, height);
  }

  lemma RevertCollectUndoes(a: Auction, txid: Txid, remaining: nat, received: nat, height: nat)
    requires a.Collect(txid, remaining, received, height).Ok?
    ensures a.Collect(txid, remaining, received, height).value.RevertCollect(txid, remaining, received) == Ok(a)
  {
    a.baseAmountRemaining.PopUndoesPush(0, txid, height);
    a.quoteAmount.PopUndoesPush(0, txid, height);
  }
}
