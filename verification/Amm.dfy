/**
 Constant-product pools. Amounts are `u64`; products are formed in `u128`, which
 never overflows. A checked operation that fails is an error; an unchecked one
 that would panic is the error `Panic`.
 */
module Amm {
  import opened Wrappers
  import opened Arith
  import opened ChainTypes

  datatype Error =
    | InvalidMint | LpTokenOverflow | LpTokenUnderflow | RevertMint
    | InvalidBurn | BurnOverflow | BurnUnderflow
    | InvalidSwap | ReserveOverflow | InsufficientLiquidity | RevertSwap
    | MissingPoolState
    | Panic

  /** Integer square root. */
  function Isqrt(n: nat): (r: nat)
    ensures r * r <= n < (r + 1) * (r + 1)
  {
    if n == 0 then 0
    else
      var r := Isqrt(n - 1);
      if (r + 1) * (r + 1) <= n then r + 1 else r
  }

  /** What remains of an amount after the 0.3% fee. */
  function AfterFee(amount: nat): (r: nat)
    ensures r <= amount && 1000 * r <= 997 * amount < 1000 * (r + 1)
  {
    amount * 997 / 1000
  }

  datatype PoolState = PoolState(reserve0: nat, reserve1: nat, lpTokens: nat, creationTxid: Txid) {

    predicate InRange() {
      reserve0 < U64_LIMIT && reserve1 < U64_LIMIT && lpTokens < U64_LIMIT
    }

    /** The new state after depositing both amounts for LP tokens. */
    function Mint(amount0: nat, amount1: nat): Result<PoolState, Error> {
      var new0 := reserve0 + amount0;
      var new1 := reserve1 + amount1;
      if new0 >= U64_LIMIT || new1 >= U64_LIMIT then Err(InvalidMint)
      else if reserve0 == 0 || reserve1 == 0 || lpTokens == 0 then
        var newLp := lpTokens + Isqrt(new0 * new1);
        if newLp >= U64_LIMIT then Err(Panic) else Ok(PoolState(new0, new1, newLp, creationTxid))
      else
        var minted := Min(Share(lpTokens, amount0, reserve0), Share(lpTokens, amount1, reserve1));
        if minted >= U64_LIMIT || lpTokens + minted >= U64_LIMIT then Err(LpTokenOverflow)
        else Ok(PoolState(new0, new1, lpTokens + minted, creationTxid))
    }

    function RevertMint(amount0: nat, amount1: nat, minted: nat): Result<PoolState, Error> {
      if reserve0 < amount0 || reserve1 < amount1 then Err(InvalidMint)
      else if lpTokens < minted then Err(LpTokenUnderflow)
      else
        var before := PoolState(reserve0 - amount0, reserve1 - amount1, lpTokens - minted, creationTxid);
        var again :- before.Mint(amount0, amount1);
        if again == this then Ok(before) else Err(Error.RevertMint)
    }

    /** The new state after redeeming LP tokens for a proportional share of both reserves. */
    function Burn(amount: nat): Result<PoolState, Error> {
      if lpTokens == 0 then Err(InvalidBurn)
      else
        var payout0 := Share(reserve0, amount, lpTokens);
        var payout1 := Share(reserve1, amount, lpTokens);
        if payout0 >= U64_LIMIT || payout1 >= U64_LIMIT then Err(BurnOverflow)
        else if payout0 > reserve0 || payout1 > reserve1 || amount > lpTokens then Err(BurnUnderflow)
        else Ok(PoolState(reserve0 - payout0, reserve1 - payout1, lpTokens - amount, creationTxid))
    }

    function Unburn(amount: nat, payout0: nat, payout1: nat): Result<PoolState, Error> {
      if lpTokens + amount >= U64_LIMIT || reserve0 + payout0 >= U64_LIMIT || reserve1 + payout1 >= U64_LIMIT
      then Err(BurnOverflow)
      else Ok(PoolState(reserve0 + payout0, reserve1 + payout1, lpTokens + amount, creationTxid))
    }

    function SwapAsset0ForAsset1(amount: nat): Result<PoolState, Error> {
      var r :- SwapReserves(reserve0, reserve1, amount);
      Ok(PoolState(r.spend, r.receive, lpTokens, creationTxid))
    }

    function SwapAsset1ForAsset0(amount: nat): Result<PoolState, Error> {
      var r :- SwapReserves(reserve1, reserve0, amount);
      Ok(PoolState(r.receive, r.spend, lpTokens, creationTxid))
    }

    /**
     Undo a swap that spent `spent` and received `received`, and check it by
     swapping again. The flags say which side of the pair the spent asset is.
     */
    function RevertSwap(spendIsAsset0: bool, spendIsAsset1: bool, spent: nat, received: nat): Result<PoolState, Error> {
      var new0 := if spendIsAsset1 then reserve0 + received else reserve0 - spent;
      var new1 := if spendIsAsset1 then reserve1 - spent else reserve1 + received;
      if !(0 <= new0 < U64_LIMIT && 0 <= new1 < U64_LIMIT) then Err(Panic)
      else
        var before := PoolState(new0, new1, lpTokens, creationTxid);
        var again :- if spendIsAsset0 then before.SwapAsset0ForAsset1(spent) else before.SwapAsset1ForAsset0(spent);
        if again == this then Ok(before) else Err(Error.RevertSwap)
    }

    /** Outstanding LP tokens never exceed the geometric mean of the reserves. */
    predicate Solvent() {
      InRange() && lpTokens * lpTokens <= reserve0 * reserve1
    }
  }

  datatype Reserves = Reserves(spend: nat, receive: nat)

  /** New spend and receive reserves: the fee is taken from both sides of the constant-product price. */
  function SwapReserves(spendReserve: nat, receiveReserve: nat, amount: nat): Result<Reserves, Error> {
    var effective := spendReserve + AfterFee(amount);
    if effective == 0 then Err(Panic)
    else
      var newReceive := DivCeil(spendReserve * receiveReserve, effective);
      if newReceive >= U64_LIMIT || newReceive > receiveReserve then Err(InvalidSwap)
      else
        var received := AfterFee(receiveReserve - newReceive);
        if spendReserve + amount >= U64_LIMIT then Err(ReserveOverflow)
        else if received > receiveReserve then Err(InsufficientLiquidity)
        else Ok(Reserves(spendReserve + amount, receiveReserve - received))
  }

  /** A burn pays the integer part of the proportional share of each reserve. */
  lemma BurnDivides(p: PoolState, amount: nat)
    requires p.Burn(amount).Ok?
    ensures p.lpTokens > 0
    ensures p.Burn(amount).value.reserve0 + p.reserve0 * amount / p.lpTokens == p.reserve0
    ensures p.Burn(amount).value.reserve1 + p.reserve1 * amount / p.lpTokens == p.reserve1
  {
    ShareIsDivision(p.reserve0, amount, p.lpTokens);
    ShareIsDivision(p.reserve1, amount, p.lpTokens);
  }

  /** A swap keeps the product, divided and rounded up, of the other reserve, and takes the fee from the rest. */
  lemma SwapDivides(spend: nat, receive: nat, amount: nat, effective: nat, kept: nat)
    requires effective == spend + AfterFee(amount) && effective > 0
    requires kept == (spend * receive + effective - 1) / effective
    ensures SwapReserves(spend, receive, amount).Ok? ==>
              && kept <= receive
              && SwapReserves(spend, receive, amount).value
                 == Reserves(spend + amount, receive - AfterFee(receive - kept))
  {
    var product := spend * receive;
    DivCeilIsDivision(product, effective);
    assert DivCeil(product, effective) == kept;
  }

  // ---- arithmetic ----

  /** Each reserve per LP token does not fall: `l'/l <= r'/r` on both sides bounds the square by the product. */
  lemma ShareBound(l: nat, m: nat, r0: nat, r1: nat, s0: nat, s1: nat)
    requires m * r0 <= l * s0 && m * r1 <= l * s1
    ensures m * m * (r0 * r1) <= l * l * (s0 * s1)
  {
    MulMono(m * r0, l * s0, m * r1, l * s1);
    assert (m * r0) * (m * r1) == m * m * (r0 * r1);
    assert (l * s0) * (l * s1) == l * l * (s0 * s1);
  }

  lemma SharesKeepSolvent(l: nat, m: nat, r0: nat, r1: nat, s0: nat, s1: nat)
    requires m * r0 <= l * s0 && m * r1 <= l * s1 && l * l <= r0 * r1 && r0 * r1 > 0
    ensures m * m <= s0 * s1
  {
    ShareBound(l, m, r0, r1, s0, s1);
    MulMono(l * l, r0 * r1, s0 * s1, s0 * s1);
    assert m * m * (r0 * r1) <= s0 * s1 * (r0 * r1);
    MulCancel(m * m, s0 * s1, r0 * r1);
  }

  // ---- single operations ----

  lemma PositiveReserves(p: PoolState)
    requires p.Solvent() && p.lpTokens > 0
    ensures p.reserve0 > 0 && p.reserve1 > 0
  {
    MulMono(1, p.lpTokens, 1, p.lpTokens);
  }

  /** Reserves per LP token, on each side, in `q` against `p`. */
  predicate SharesKept(p: PoolState, q: PoolState) {
    q.lpTokens * p.reserve0 <= p.lpTokens * q.reserve0 && q.lpTokens * p.reserve1 <= p.lpTokens * q.reserve1
  }

  lemma DepositGrows(lp: nat, reserve: nat, amount: nat, minted: nat)
    requires minted * reserve <= lp * amount
    ensures (lp + minted) * reserve <= lp * (reserve + amount)
  {
  }

  /** The LP tokens a later deposit mints, before any overflow test. */
  lemma LaterMintShares(lp: nat, r0: nat, r1: nat, amount0: nat, amount1: nat, minted: nat)
    requires lp * lp <= r0 * r1 && r0 > 0 && r1 > 0
    requires minted == Min(Share(lp, amount0, r0), Share(lp, amount1, r1))
    ensures minted * r0 <= lp * amount0 && minted * r1 <= lp * amount1
    ensures (lp + minted) * r0 <= lp * (r0 + amount0) && (lp + minted) * r1 <= lp * (r1 + amount1)
    ensures (lp + minted) * (lp + minted) <= (r0 + amount0) * (r1 + amount1)
  {
    ShareBounds(lp, amount0, r0, minted);
    ShareBounds(lp, amount1, r1, minted);
    DepositGrows(lp, r0, amount0, minted);
    DepositGrows(lp, r1, amount1, minted);
    DepositSolvent(lp, lp + minted, r0, r1, r0 + amount0, r1 + amount1);
  }

  lemma DepositSolvent(l: nat, m: nat, r0: nat, r1: nat, s0: nat, s1: nat)
    requires m * r0 <= l * s0 && m * r1 <= l * s1 && l * l <= r0 * r1 && r0 > 0 && r1 > 0
    ensures m * m <= s0 * s1
  {
    MulMono(1, r0, 1, r1);
    SharesKeepSolvent(l, m, r0, r1, s0, s1);
  }

  lemma FitsU64(lp: nat, new0: nat, new1: nat)
    requires lp * lp <= new0 * new1 && new0 < U64_LIMIT && new1 < U64_LIMIT
    ensures lp < U64_LIMIT
  {
    MulMono(new0, U64_LIMIT - 1, new1, U64_LIMIT - 1);
    SquareMono(lp, U64_LIMIT);
  }

  /** A solvent pool that mints as if it were new has no tokens outstanding. */
  lemma FirstMintHasNoTokens(p: PoolState)
    requires p.Solvent() && (p.reserve0 == 0 || p.reserve1 == 0 || p.lpTokens == 0)
    ensures p.lpTokens == 0
  {
    if p.lpTokens > 0 {
      PositiveReserves(p);
    }
  }

  lemma FirstMintAmount(new0: nat, new1: nat)
    requires new0 < U64_LIMIT && new1 < U64_LIMIT
    ensures Isqrt(new0 * new1) < U64_LIMIT && Isqrt(new0 * new1) * Isqrt(new0 * new1) <= new0 * new1
  {
    var n := new0 * new1;
    RootFits(n, Isqrt(n), new0, new1);
  }

  lemma RootFits(n: nat, lp: nat, new0: nat, new1: nat)
    requires n == new0 * new1 && lp * lp <= n && new0 < U64_LIMIT && new1 < U64_LIMIT
    ensures lp < U64_LIMIT
  {
    FitsU64(lp, new0, new1);
  }

  lemma FirstMintSolvent(p: PoolState, amount0: nat, amount1: nat)
    requires p.Solvent() && (p.reserve0 == 0 || p.reserve1 == 0 || p.lpTokens == 0)
    requires p.reserve0 + amount0 < U64_LIMIT && p.reserve1 + amount1 < U64_LIMIT
    ensures p.lpTokens == 0 && p.Mint(amount0, amount1).Ok? && p.Mint(amount0, amount1).value.Solvent()
  {
    FirstMintHasNoTokens(p);
    FirstMintAmount(p.reserve0 + amount0, p.reserve1 + amount1);
  }

  lemma LaterMintSolvent(p: PoolState, amount0: nat, amount1: nat)
    requires p.Solvent() && p.reserve0 > 0 && p.reserve1 > 0 && p.lpTokens > 0
    requires p.reserve0 + amount0 < U64_LIMIT && p.reserve1 + amount1 < U64_LIMIT
    ensures p.Mint(amount0, amount1).Ok? && p.Mint(amount0, amount1).value.Solvent()
    ensures SharesKept(p, p.Mint(amount0, amount1).value)
  {
    var minted := Min(Share(p.lpTokens, amount0, p.reserve0), Share(p.lpTokens, amount1, p.reserve1));
    LaterMintShares(p.lpTokens, p.reserve0, p.reserve1, amount0, amount1, minted);
    FitsU64(p.lpTokens + minted, p.reserve0 + amount0, p.reserve1 + amount1);
  }

  /** In a solvent pool a mint fails only because a reserve would overflow; otherwise the pool stays solvent. */
  lemma MintKeepsSolvent(p: PoolState, amount0: nat, amount1: nat)
    requires p.Solvent()
    ensures p.Mint(amount0, amount1).Err? <==>
            p.reserve0 + amount0 >= U64_LIMIT || p.reserve1 + amount1 >= U64_LIMIT
    ensures p.Mint(amount0, amount1).Err? ==> p.Mint(amount0, amount1).error == InvalidMint
    ensures p.Mint(amount0, amount1).Ok? ==>
              && p.Mint(amount0, amount1).value.Solvent()
              && (p.lpTokens > 0 ==> SharesKept(p, p.Mint(amount0, amount1).value))
  {
    if p.reserve0 + amount0 < U64_LIMIT && p.reserve1 + amount1 < U64_LIMIT {
      if p.reserve0 == 0 || p.reserve1 == 0 || p.lpTokens == 0 {
        FirstMintSolvent(p, amount0, amount1);
      } else {
        LaterMintSolvent(p, amount0, amount1);
      }
    }
  }

  /** The share that is minted is the largest that neither deposit falls short of. */
  lemma LargestShare(lp: nat, r0: nat, r1: nat, amount0: nat, amount1: nat, minted: nat)
    requires r0 > 0 && r1 > 0 && minted == Min(Share(lp, amount0, r0), Share(lp, amount1, r1))
    ensures minted * r0 <= lp * amount0 && minted * r1 <= lp * amount1
    ensures (minted + 1) * r0 > lp * amount0 || (minted + 1) * r1 > lp * amount1
  {
    ShareBounds(lp, amount0, r0, minted);
    ShareBounds(lp, amount1, r1, minted);
    DivBounds(lp * amount0, r0);
    DivBounds(lp * amount1, r1);
  }

  /**
   What a mint into a solvent pool adds: both deposits to the reserves, and as
   tokens the root of the new product if there were none, otherwise the largest
   share that neither deposit falls short of.
   */
  lemma MintAdds(p: PoolState, amount0: nat, amount1: nat, minted: int)
    requires p.Solvent() && p.Mint(amount0, amount1).Ok?
    requires minted == p.Mint(amount0, amount1).value.lpTokens - p.lpTokens
    ensures minted >= 0
    ensures p.Mint(amount0, amount1).value
            == PoolState(p.reserve0 + amount0, p.reserve1 + amount1, p.lpTokens + minted, p.creationTxid)
    ensures p.lpTokens == 0 ==>
              && minted * minted <= (p.reserve0 + amount0) * (p.reserve1 + amount1)
              && (p.reserve0 + amount0) * (p.reserve1 + amount1) < (minted + 1) * (minted + 1)
    ensures p.lpTokens > 0 ==>
              && minted * p.reserve0 <= p.lpTokens * amount0 && minted * p.reserve1 <= p.lpTokens * amount1
              && ((minted + 1) * p.reserve0 > p.lpTokens * amount0 || (minted + 1) * p.reserve1 > p.lpTokens * amount1)
  {
    if p.lpTokens > 0 {
      PositiveReserves(p);
      LargestShare(p.lpTokens, p.reserve0, p.reserve1, amount0, amount1, minted);
    } else {
      RootOf((p.reserve0 + amount0) * (p.reserve1 + amount1), minted);
    }
  }

  lemma RootOf(n: nat, r: nat)
    requires r == Isqrt(n)
    ensures r * r <= n < (r + 1) * (r + 1)
  {
  }

  /** A burn pays out at most the burned share, and the whole reserve when everything is burned. */
  lemma BurnShares(reserve: nat, lp: nat, amount: nat)
    requires lp > 0 && amount <= lp
    ensures Share(reserve, amount, lp) <= reserve
    ensures (lp - amount) * reserve <= lp * (reserve - Share(reserve, amount, lp))
    ensures amount == lp ==> Share(reserve, amount, lp) == reserve
  {
    var payout := Share(reserve, amount, lp);
    DivBounds(reserve * amount, lp);
    MulMono(reserve, reserve, amount, lp);
    MulCancel(payout, reserve, lp);
    assert lp * (reserve - payout) == lp * reserve - payout * lp;
    assert (lp - amount) * reserve == lp * reserve - reserve * amount;
    if amount == lp {
      assert payout * lp <= reserve * lp < (payout + 1) * lp;
      MulCancel(reserve, payout, lp) by {
        if reserve > payout {
          MulMono(payout + 1, reserve, lp, lp);
        }
      }
    }
  }

  /** Burning succeeds exactly when tokens are outstanding and no more are burned than exist. */
  lemma BurnKeepsSolvent(p: PoolState, amount: nat)
    requires p.Solvent()
    ensures p.Burn(amount).Ok? <==> p.lpTokens > 0 && amount <= p.lpTokens
    ensures p.Burn(amount).Ok? ==> p.Burn(amount).value.Solvent() && SharesKept(p, p.Burn(amount).value)
  {
    if p.lpTokens > 0 && amount <= p.lpTokens {
      PositiveReserves(p);
      BurnShares(p.reserve0, p.lpTokens, amount);
      BurnShares(p.reserve1, p.lpTokens, amount);
      var q := p.Burn(amount).value;
      DepositSolvent(p.lpTokens, q.lpTokens, p.reserve0, p.reserve1, q.reserve0, q.reserve1);
    }
  }

  /** The reserve left at the constant-product price, before the second fee. */
  lemma PriceKeepsProduct(spend: nat, receive: nat, effective: nat)
    requires spend <= effective && effective > 0
    ensures var left := DivCeil(spend * receive, effective);
            left <= receive && spend * receive <= left * effective
  {
    var left := DivCeil(spend * receive, effective);
    DivCeilBounds(spend * receive, effective);
    MulMono(spend, effective, receive, receive);
    assert left * effective < (receive + 1) * effective by {
      assert (receive + 1) * effective == receive * effective + effective;
    }
    if left > receive {
      MulMono(receive + 1, left, effective, effective);
    }
  }

  /** A swap never lets the product of the reserves fall, and never takes more than the reserve. */
  lemma SwapKeepsProduct(spend: nat, receive: nat, amount: nat)
    requires spend < U64_LIMIT && receive < U64_LIMIT
    ensures SwapReserves(spend, receive, amount) == Err(Panic) <==> spend == 0 && AfterFee(amount) == 0
    ensures SwapReserves(spend, receive, amount).Err? && SwapReserves(spend, receive, amount).error != Panic <==>
            spend + AfterFee(amount) > 0 && spend + amount >= U64_LIMIT
    ensures SwapReserves(spend, receive, amount).Ok? ==>
              var Reserves(s, r) := SwapReserves(spend, receive, amount).value;
              s == spend + amount < U64_LIMIT && r <= receive && spend * receive <= s * r
  {
    var effective := spend + AfterFee(amount);
    if effective > 0 {
      PriceKeepsProduct(spend, receive, effective);
      var left := DivCeil(spend * receive, effective);
      MulMono(left, receive - AfterFee(receive - left), effective, spend + amount);
    }
  }

  lemma SwapKeepsSolvent(p: PoolState, asset0: bool, amount: nat)
    requires p.Solvent()
    ensures var r := if asset0 then p.SwapAsset0ForAsset1(amount) else p.SwapAsset1ForAsset0(amount);
            && (r.Ok? ==> r.value.Solvent() && r.value.lpTokens == p.lpTokens
                          && p.reserve0 * p.reserve1 <= r.value.reserve0 * r.value.reserve1)
            && (r == Err(Panic) <==> (if asset0 then p.reserve0 else p.reserve1) == 0 && AfterFee(amount) == 0)
  {
    if asset0 {
      SwapKeepsProduct(p.reserve0, p.reserve1, amount);
    } else {
      SwapKeepsProduct(p.reserve1, p.reserve0, amount);
      var r := p.SwapAsset1ForAsset0(amount);
      if r.Ok? {
        assert p.reserve1 * p.reserve0 == p.reserve0 * p.reserve1;
        assert r.value.reserve1 * r.value.reserve0 == r.value.reserve0 * r.value.reserve1;
      }
    }
  }

  // ---- runs ----

  datatype Op = MintOp(amount0: nat, amount1: nat) | BurnOp(burned: nat) | SwapOp(asset0: bool, spent: nat)

  function Apply(p: PoolState, op: Op): Result<PoolState, Error> {
    match op
    case MintOp(a, b) => p.Mint(a, b)
    case BurnOp(n) => p.Burn(n)
    case SwapOp(asset0, n) => if asset0 then p.SwapAsset0ForAsset1(n) else p.SwapAsset1ForAsset0(n)
  }

  /** All operations in order; a failing one fails the run. */
  function Run(p: PoolState, ops: seq<Op>): Result<PoolState, Error>
    decreases |ops|
  {
    if ops == [] then Ok(p)
    else
      var q :- Run(p, ops[..|ops| - 1]);
      Apply(q, ops[|ops| - 1])
  }

  function NewPool(txid: Txid): PoolState {
    PoolState(0, 0, 0, txid)
  }

  lemma ApplyKeepsSolvent(p: PoolState, op: Op)
    requires p.Solvent() && Apply(p, op).Ok?
    ensures Apply(p, op).value.Solvent()
    ensures p.lpTokens > 0 && Apply(p, op).value.lpTokens > 0 ==> ValueKept(p, Apply(p, op).value)
  {
    var q := Apply(p, op).value;
    match op
    case MintOp(a, b) =>
      MintKeepsSolvent(p, a, b);
      if p.lpTokens > 0 {
        ShareBound(p.lpTokens, q.lpTokens, p.reserve0, p.reserve1, q.reserve0, q.reserve1);
      }
    case BurnOp(n) =>
      BurnKeepsSolvent(p, n);
      ShareBound(p.lpTokens, q.lpTokens, p.reserve0, p.reserve1, q.reserve0, q.reserve1);
    case SwapOp(asset0, n) =>
      SwapKeepsSolvent(p, asset0, n);
      MulMono(p.reserve0 * p.reserve1, q.reserve0 * q.reserve1, p.lpTokens * p.lpTokens, p.lpTokens * p.lpTokens);
  }

  /** The reserve product per squared LP token has not fallen from `p` to `q`. */
  predicate ValueKept(p: PoolState, q: PoolState) {
    q.lpTokens * q.lpTokens * (p.reserve0 * p.reserve1) <= p.lpTokens * p.lpTokens * (q.reserve0 * q.reserve1)
  }

  lemma ValueKeptTransitive(p: PoolState, q: PoolState, s: PoolState)
    requires p.Solvent() && p.lpTokens > 0 && q.lpTokens > 0 && ValueKept(p, q) && ValueKept(q, s)
    ensures ValueKept(p, s)
  {
    var a, b, c := p.lpTokens * p.lpTokens, q.lpTokens * q.lpTokens, s.lpTokens * s.lpTokens;
    var x, y, z := p.reserve0 * p.reserve1, q.reserve0 * q.reserve1, s.reserve0 * s.reserve1;
    MulMono(1, q.lpTokens, 1, q.lpTokens);
    MulMono(b * x, a * y, c, c);
    MulMono(c * y, b * z, a, a);
    assert (c * x) * b == (b * x) * c;
    assert (a * y) * c == (c * y) * a;
    assert (b * z) * a == (a * z) * b;
    MulCancel(c * x, a * z, b);
  }

  /** Every pool reached from a solvent one, in particular from a new one, is solvent. */
  lemma {:induction false} RunSolvent(p: PoolState, ops: seq<Op>)
    requires p.Solvent() && Run(p, ops).Ok?
    ensures Run(p, ops).value.Solvent()
    decreases |ops|
  {
    if ops != [] {
      RunSolvent(p, ops[..|ops| - 1]);
      ApplyKeepsSolvent(Run(p, ops[..|ops| - 1]).value, ops[|ops| - 1]);
    }
  }

  /**
   What a reachable pool guarantees: outstanding tokens mean both reserves are
   positive, so no swap can divide by zero; a mint fails only on reserve
   overflow, never on an LP token overflow; a burn fails only when it redeems
   more tokens than exist or none do.
   */
  lemma ReachablePool(txid: Txid, ops: seq<Op>, op: Op)
    requires Run(NewPool(txid), ops).Ok?
    ensures var p := Run(NewPool(txid), ops).value;
            && p.lpTokens * p.lpTokens <= p.reserve0 * p.reserve1
            && (p.lpTokens > 0 ==> p.reserve0 > 0 && p.reserve1 > 0 && Apply(p, op) != Err(Panic))
            && Apply(p, op) != Err(LpTokenOverflow)
            && (op.MintOp? ==> (Apply(p, op).Err? <==>
                                p.reserve0 + op.amount0 >= U64_LIMIT || p.reserve1 + op.amount1 >= U64_LIMIT))
            && (op.BurnOp? ==> (Apply(p, op).Err? <==> p.lpTokens == 0 || op.burned > p.lpTokens))
  {
    RunSolvent(NewPool(txid), ops);
    var p := Run(NewPool(txid), ops).value;
    if p.lpTokens > 0 {
      PositiveReserves(p);
    }
    match op
    case MintOp(a, b) => MintKeepsSolvent(p, a, b);
    case BurnOp(n) => BurnKeepsSolvent(p, n);
    case SwapOp(asset0, n) => SwapKeepsSolvent(p, asset0, n);
  }

  /** LP tokens stay outstanding after every operation of the run. */
  predicate AlwaysOutstanding(p: PoolState, ops: seq<Op>)
    decreases |ops|
  {
    if ops == [] then p.lpTokens > 0
    else AlwaysOutstanding(p, ops[..|ops| - 1]) && Run(p, ops).Ok? && Run(p, ops).value.lpTokens > 0
  }

  /** While tokens are outstanding, no run lowers the reserve product per squared LP token. */
  lemma {:induction false} RunKeepsValue(p: PoolState, ops: seq<Op>)
    requires p.Solvent() && AlwaysOutstanding(p, ops)
    ensures p.lpTokens > 0 && Run(p, ops).Ok? && Run(p, ops).value.Solvent() && ValueKept(p, Run(p, ops).value)
    decreases |ops|
  {
    if ops != [] {
      var q := Run(p, ops[..|ops| - 1]);
      var op := ops[|ops| - 1];
      assert AlwaysOutstanding(p, ops[..|ops| - 1]);
      RunKeepsValue(p, ops[..|ops| - 1]);
      RunUnfold(p, ops);
      StepKeepsValue(p, q.value, op);
    }
  }

  lemma RunUnfold(p: PoolState, ops: seq<Op>)
    requires ops != [] && AlwaysOutstanding(p, ops)
    ensures Run(p, ops[..|ops| - 1]).Ok? && Run(p, ops[..|ops| - 1]).value.lpTokens > 0
    ensures Run(p, ops) == Apply(Run(p, ops[..|ops| - 1]).value, ops[|ops| - 1])
    ensures Run(p, ops).Ok? && Run(p, ops).value.lpTokens > 0
  {
  }

  lemma StepKeepsValue(p: PoolState, q: PoolState, op: Op)
    requires p.Solvent() && p.lpTokens > 0 && q.Solvent() && q.lpTokens > 0 && ValueKept(p, q)
    requires Apply(q, op).Ok? && Apply(q, op).value.lpTokens > 0
    ensures Apply(q, op).value.Solvent() && ValueKept(p, Apply(q, op).value)
  {
    ApplyKeepsSolvent(q, op);
    ValueKeptTransitive(p, q, Apply(q, op).value);
  }

  // ---- no profit ----

  lemma ShareOfDeposit(reserve: nat, lp: nat, deposit: nat, minted: nat, burned: nat)
    requires minted * reserve <= lp * deposit && burned <= minted && lp > 0
    ensures Share(reserve + deposit, burned, lp + minted) <= deposit
  {
    var payout := Share(reserve + deposit, burned, lp + minted);
    ShareBounds(reserve + deposit, burned, lp + minted, payout);
    MulMono(reserve + deposit, reserve + deposit, burned, minted);
    MintedWithinDeposit(reserve, lp, deposit, minted);
    MulCancel(payout, deposit, lp + minted);
  }

  lemma MintedWithinDeposit(reserve: nat, lp: nat, deposit: nat, minted: nat)
    requires minted * reserve <= lp * deposit
    ensures (reserve + deposit) * minted <= deposit * (lp + minted)
  {
  }

  /**
   Depositing into a pool with tokens outstanding and burning any of the minted
   tokens returns at most the deposit.
   */
  lemma MintThenBurnNeverProfits(p: PoolState, amount0: nat, amount1: nat, burned: nat)
    requires p.Solvent() && p.lpTokens > 0 && p.Mint(amount0, amount1).Ok?
    requires var q := p.Mint(amount0, amount1).value;
             burned <= q.lpTokens - p.lpTokens && q.Burn(burned).Ok?
    ensures var q := p.Mint(amount0, amount1).value;
            var s := q.Burn(burned).value;
            q.reserve0 - s.reserve0 <= amount0 && q.reserve1 - s.reserve1 <= amount1
  {
    PositiveReserves(p);
    var q := p.Mint(amount0, amount1).value;
    LaterMintShares(p.lpTokens, p.reserve0, p.reserve1, amount0, amount1, q.lpTokens - p.lpTokens);
    ShareOfDeposit(p.reserve0, p.lpTokens, amount0, q.lpTokens - p.lpTokens, burned);
    ShareOfDeposit(p.reserve1, p.lpTokens, amount1, q.lpTokens - p.lpTokens, burned);
  }

  /**
   With no tokens outstanding the depositor owns the whole pool, so minting and
   burning everything returns the deposit exactly when nothing was left in the
   reserves, and otherwise returns the leftovers as well.
   */
  lemma FirstMintThenBurn(p: PoolState, amount0: nat, amount1: nat)
    requires p.Solvent() && p.lpTokens == 0 && p.Mint(amount0, amount1).Ok?
             && p.Mint(amount0, amount1).value.lpTokens > 0
    ensures var q := p.Mint(amount0, amount1).value;
            var b := q.Burn(q.lpTokens);
            && b.Ok? && q.reserve0 - b.value.reserve0 == p.reserve0 + amount0
            && q.reserve1 - b.value.reserve1 == p.reserve1 + amount1
            && (q.reserve0 - b.value.reserve0 <= amount0 && q.reserve1 - b.value.reserve1 <= amount1 <==>
                p.reserve0 == 0 && p.reserve1 == 0)
  {
    MintKeepsSolvent(p, amount0, amount1);
    var q := p.Mint(amount0, amount1).value;
    BurnKeepsSolvent(q, q.lpTokens);
    BurnShares(q.reserve0, q.lpTokens, q.lpTokens);
    BurnShares(q.reserve1, q.lpTokens, q.lpTokens);
  }

  /** Such leftovers arise: a one-sided first deposit mints nothing and stays in the pool. */
  lemma LeftoversExist(txid: Txid)
    ensures Run(NewPool(txid), [MintOp(0, 5)]) == Ok(PoolState(0, 5, 0, txid))
  {
    assert [MintOp(0, 5)][..0] == [];
    assert Run(NewPool(txid), []) == Ok(NewPool(txid));
  }

  predicate OnlySwaps(ops: seq<Op>) {
    forall op | op in ops :: op.SwapOp?
  }

  lemma {:induction false} SwapRunKeepsProduct(p: PoolState, ops: seq<Op>)
    requires p.Solvent() && OnlySwaps(ops) && Run(p, ops).Ok?
    ensures p.reserve0 * p.reserve1 <= Run(p, ops).value.reserve0 * Run(p, ops).value.reserve1
    ensures Run(p, ops).value.Solvent()
    decreases |ops|
  {
    if ops != [] {
      SwapRunKeepsProduct(p, ops[..|ops| - 1]);
      var op := ops[|ops| - 1];
      SwapKeepsSolvent(Run(p, ops[..|ops| - 1]).value, op.asset0, op.spent);
    }
  }

  /**
   No sequence of swaps takes one asset out of a pool with reserves without
   leaving more of the other; swapping there and back is the two-step case.
   */
  lemma SwapsNeverProfit(p: PoolState, ops: seq<Op>)
    requires p.Solvent() && p.reserve0 > 0 && p.reserve1 > 0 && OnlySwaps(ops) && Run(p, ops).Ok?
    ensures var q := Run(p, ops).value;
            && (q.reserve1 <= p.reserve1 ==> q.reserve0 >= p.reserve0)
            && (q.reserve0 <= p.reserve0 ==> q.reserve1 >= p.reserve1)
  {
    SwapRunKeepsProduct(p, ops);
    var q := Run(p, ops).value;
    BothNotLower(p.reserve0, p.reserve1, q.reserve0, q.reserve1);
    assert p.reserve1 * p.reserve0 <= q.reserve1 * q.reserve0;
    BothNotLower(p.reserve1, p.reserve0, q.reserve1, q.reserve0);
  }

  lemma BothNotLower(a: nat, b: nat, c: nat, d: nat)
    requires a > 0 && b > 0 && a * b <= c * d
    ensures d <= b ==> c >= a
  {
    if d <= b {
      MulMono(c, c, d, b);
      MulCancel(a, c, b);
    }
  }

  // ---- reverting ----

  lemma RevertMintUndoes(p: PoolState, amount0: nat, amount1: nat)
    requires p.Mint(amount0, amount1).Ok?
    ensures var q := p.Mint(amount0, amount1).value;
            q.lpTokens >= p.lpTokens && q.RevertMint(amount0, amount1, q.lpTokens - p.lpTokens) == Ok(p)
  {
  }

  lemma UnburnUndoes(p: PoolState, amount: nat)
    requires p.InRange() && p.Burn(amount).Ok?
    ensures var q := p.Burn(amount).value;
            q.reserve0 <= p.reserve0 && q.reserve1 <= p.reserve1
            && q.Unburn(amount, p.reserve0 - q.reserve0, p.reserve1 - q.reserve1) == Ok(p)
  {
  }

  lemma RevertSwapUndoes(p: PoolState, asset0: bool, amount: nat)
    requires p.InRange() && (if asset0 then p.SwapAsset0ForAsset1(amount) else p.SwapAsset1ForAsset0(amount)).Ok?
    ensures var q := (if asset0 then p.SwapAsset0ForAsset1(amount) else p.SwapAsset1ForAsset0(amount)).value;
            var received := if asset0 then p.reserve1 - q.reserve1 else p.reserve0 - q.reserve0;
            received >= 0 && q.RevertSwap(asset0, !asset0, amount, received) == Ok(p)
  {
  }
}
