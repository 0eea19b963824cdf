/**
 The state tables, and what connecting and disconnecting a block does to them:
 transactions are applied in order and reverted last first.
 */
module StateDb {
  import opened Wrappers
  import opened ChainTypes
  import opened Transactions
  import Coins
  import Effects
  import BitAssets

  datatype StateDb = StateDb(tip: Option<BlockHash>, height: Option<nat>, coins: Coins.Coins, effects: Effects.Effects)

  const EMPTY_STATE: StateDb :=
    StateDb(None, None, Coins.Coins(map[], map[]),
            Effects.Effects(map[], map[], BitAssets.Tables(map[], map[], map[], map[])))

  datatype Error =
    | PrevSideHash(expectedPrev: Option<BlockHash>, receivedPrev: Option<BlockHash>)
    | TipHash(expectedHash: BlockHash, computedHash: BlockHash)
    | InvalidBody(expected: int, computed: int)
    | MerkleRoot
    | BadCoinbaseOutputContent
    | FillTxOutputContents(unfillable: FilledTransaction)
    | NoTip
    | BodyTooLarge | UtxoDoubleSpent | AmountOverflow | NotEnoughFees | WrongPubKeyForAddress | Unauthorized
    | InvalidTransaction(rejected: FilledTransaction)
    | CoinError(coin: Coins.Error)
    | EffectError(effect: Effects.Error)
    | Panic

  /** Rules computed from a block's own data by code that is not part of the tables. */
  datatype Rules = Rules(
    contents: FilledTransaction -> Option<seq<FilledContent>>,  // what the outputs hold, if they can be filled
    keyedHash: Effects.KeyedHash,
    merkleRoot: (seq<Output>, seq<FilledTransaction>) -> Option<int>,
    fee: (StateDb, FilledTransaction) -> Option<nat>,           // the fee of a valid transaction
    withinSize: Body -> bool,
    authorized: Body -> bool)

  function LiftCoins<T>(r: Result<T, Coins.Error>): Result<T, Error> {
    match r case Ok(v) => Ok(v) case Err(e) => Err(if e.WrongInPoint? then Panic else CoinError(e))
  }

  function LiftEffect<T>(r: Result<T, Effects.Error>): Result<T, Error> {
    match r case Ok(v) => Ok(v) case Err(e) => Err(EffectError(e))
  }

  /** The outputs of a filled transaction, one for each of its outputs. */
  function FilledOutputs(rules: Rules, f: FilledTransaction): (r: Option<seq<FilledOutput>>)
    ensures r.Some? ==> |r.value| == |f.tx.outputs|
  {
    match rules.contents(f)
    case None => None
    case Some(c) =>
      if |c| != |f.tx.outputs| then None
      else Some(seq(|c|, i requires 0 <= i < |c| => FilledOutput(f.tx.outputs[i].address, c[i], f.tx.outputs[i].memo)))
  }

  /** A coinbase output holds bitcoin or a withdrawal, nothing else. */
  function CoinbaseOutput(o: Output): Option<FilledOutput> {
    match o.content
    case BitcoinOut(v) => Some(FilledOutput(o.address, FilledBitcoin(v), o.memo))
    case WithdrawalOut(v) => Some(FilledOutput(o.address, FilledWithdrawal(v), o.memo))
    case _ => None
  }

  function CoinbaseOutputs(outputs: seq<Output>, n: nat): (r: Option<seq<FilledOutput>>)
    requires n <= |outputs|
    ensures r.Some? <==> forall v | 0 <= v < n :: CoinbaseOutput(outputs[v]).Some?
    ensures r.Some? ==> |r.value| == n && forall v | 0 <= v < n :: CoinbaseOutput(outputs[v]) == Some(r.value[v])
  {
    if n == 0 then Some([])
    else
      var before := CoinbaseOutputs(outputs, n - 1);
      if before.None? || CoinbaseOutput(outputs[n - 1]).None? then None
      else Some(before.value + [CoinbaseOutput(outputs[n - 1]).value])
  }

  // ---- one transaction ----

  function ApplyTx(rules: Rules, s: StateDb, tx: Transaction, height: nat): Result<StateDb, Error> {
    var f :- LiftCoins(Coins.Fill(s.coins, tx));
    var spent :- LiftCoins(Coins.Spend(s.coins, tx, |tx.inputs|));
    var outputs := FilledOutputs(rules, f);
    if outputs.None? then Err(FillTxOutputContents(f))
    else
      var coins := Coins.Create(spent, Coins.FromTx(tx.txid), outputs.value, |outputs.value|);
      var effects :- LiftEffect(Effects.Apply(rules.keyedHash, s.effects, f, height));
      Ok(s.(coins := coins, effects := effects))
  }

  function RevertTx(rules: Rules, s: StateDb, tx: Transaction, height: nat): Result<StateDb, Error> {
    var f :- LiftCoins(Coins.FillSpent(s.coins, tx));
    var effects :- LiftEffect(Effects.Revert(rules.keyedHash, s.effects, f, height));
    var uncreated :- LiftCoins(Coins.Uncreate(s.coins, Coins.FromTx(tx.txid), |tx.outputs|));
    var coins :- LiftCoins(Coins.Unspend(uncreated, tx, |tx.inputs|));
    Ok(s.(coins := coins, effects := effects))
  }

  // ---- blocks ----

  function FillAll(c: Coins.Coins, txs: seq<Transaction>, n: nat): (r: Result<seq<FilledTransaction>, Error>)
    requires n <= |txs|
    ensures r.Ok? ==> |r.value| == n && forall i | 0 <= i < n :: Coins.Fill(c, txs[i]) == Ok(r.value[i])
  {
    if n == 0 then Ok([])
    else
      var before :- FillAll(c, txs, n - 1);
      var f :- LiftCoins(Coins.Fill(c, txs[n - 1]));
      Ok(before + [f])
  }

  function FillAllSpent(c: Coins.Coins, txs: seq<Transaction>, n: nat): Result<seq<FilledTransaction>, Error>
    requires n <= |txs|
  {
    if n == 0 then Ok([])
    else
      var before :- FillAllSpent(c, txs, n - 1);
      var f :- LiftCoins(Coins.FillSpent(c, txs[n - 1]));
      Ok(before + [f])
  }

  /** Apply the first `n` transactions, in order. */
  function ApplyTxs(rules: Rules, s: StateDb, txs: seq<Transaction>, n: nat, height: nat): Result<StateDb, Error>
    requires n <= |txs|
  {
    if n == 0 then Ok(s)
    else
      var t :- ApplyTxs(rules, s, txs, n - 1, height);
      ApplyTx(rules, t, txs[n - 1], height)
  }

  /** Revert the first `n` transactions, last first. */
  function RevertTxs(rules: Rules, s: StateDb, txs: seq<Transaction>, n: nat, height: nat): Result<StateDb, Error>
    requires n <= |txs|
    decreases n
  {
    if n == 0 then Ok(s)
    else
      var t :- RevertTx(rules, s, txs[n - 1], height);
      RevertTxs(rules, t, txs, n - 1, height)
  }

  /** The height of the block connected next. */
  function NextHeight(s: StateDb): nat {
    match s.height case None => 0 case Some(h) => h + 1
  }

  function CheckRoot(rules: Rules, h: Header, b: Body, filled: seq<FilledTransaction>): Option<Error> {
    match rules.merkleRoot(b.coinbase, filled)
    case None => Some(MerkleRoot)
    case Some(root) => if root != h.merkleRoot then Some(InvalidBody(root, h.merkleRoot)) else None
  }

  function Connect(rules: Rules, s: StateDb, h: Header, b: Body): Result<StateDb, Error> {
    if s.tip != h.prevSide then Err(PrevSideHash(s.tip, h.prevSide))
    else
      var filled :- FillAll(s.coins, b.transactions, |b.transactions|);
      if CheckRoot(rules, h, b, filled).Some? then Err(CheckRoot(rules, h, b, filled).value)
      else
        var coinbase := CoinbaseOutputs(b.coinbase, |b.coinbase|);
        if coinbase.None? then Err(BadCoinbaseOutputContent)
        else
          var start := WithCoinbase(s, h, coinbase.value);
          var t :- ApplyTxs(rules, start, b.transactions, |b.transactions|, NextHeight(s));
          Ok(t.(tip := Some(h.hash), height := Some(NextHeight(s))))
  }

  function WithCoinbase(s: StateDb, h: Header, outputs: seq<FilledOutput>): StateDb {
    s.(coins := Coins.Create(s.coins, Coins.FromCoinbase(h.coinbaseTxid), outputs, |outputs|))
  }

  function Disconnect(rules: Rules, s: StateDb, h: Header, b: Body): Result<StateDb, Error> {
    if s.tip.None? then Err(NoTip)
    else if s.tip.value != h.hash then Err(TipHash(s.tip.value, h.hash))
    else
      var filled :- FillAllSpent(s.coins, b.transactions, |b.transactions|);
      if CheckRoot(rules, h, b, filled).Some? then Err(SwapExpected(CheckRoot(rules, h, b, filled).value))
      else if s.height.None? then Err(Panic)
      else
        var t :- RevertTxs(rules, s, b.transactions, |b.transactions|, s.height.value);
        var coins :- LiftCoins(Coins.Uncreate(t.coins, Coins.FromCoinbase(h.coinbaseTxid), |b.coinbase|));
        StepBack(t.(coins := coins), h.prevSide, s.height.value)
  }

  /** Disconnecting names the header's root as the expected one; connecting names the computed root. */
  function SwapExpected(e: Error): Error {
    if e.InvalidBody? then InvalidBody(e.computed, e.expected) else e
  }

  function StepBack(s: StateDb, prev: Option<BlockHash>, height: nat): Result<StateDb, Error> {
    if prev.None? && height == 0 then Ok(s.(tip := None, height := None))
    else if prev.None? || height == 0 then Err(NoTip)
    else Ok(s.(tip := prev, height := Some(height - 1)))
  }

  // ---- what a block may assume and what it keeps ----

  /**
   Invariant of the state: no output is both spent and unspent, pools are solvent,
   assets and numbers are in bijection, tip and height go together.
   */
  ghost predicate Valid(s: StateDb) {
    && Coins.Disjoint(s.coins) && Effects.PoolsSound(s.effects.pools) && BitAssets.Bijection(s.effects.assets)
    && (s.tip.Some? <==> s.height.Some?)
  }

  /** No table mentions this txid yet. */
  ghost predicate NewTx(s: StateDb, txid: Txid) {
    && Effects.UnusedTxid(s.effects, txid) && Coins.Unplaced(s.coins, Coins.FromTx(txid))
  }

  /** Stored reservations say what the unspent reservation outputs `utxos` say. */
  ghost predicate ReservationsMatch(utxos: map<OutPoint, FilledOutput>, e: Effects.Effects) {
    forall o | o in utxos && utxos[o].content.FilledReservation? && utxos[o].content.txid in e.assets.reservations ::
      e.assets.reservations[utxos[o].content.txid] == utxos[o].content.commitment
  }

  ghost predicate NoReservationOf(utxos: map<OutPoint, FilledOutput>, txid: Txid) {
    forall o | o in utxos && utxos[o].content.FilledReservation? :: utxos[o].content.txid != txid
  }

  /** Transactions `n` and later use new txids. */
  ghost predicate FreshFrom(s: StateDb, txs: seq<Transaction>, n: nat) {
    forall i | n <= i < |txs| :: NewTx(s, txs[i].txid)
  }

  ghost predicate DistinctIds(txs: seq<Transaction>) {
    forall i, j {:trigger Apart(txs, i, j)} | 0 <= i < j < |txs| :: Apart(txs, i, j)
  }

  ghost predicate Apart(txs: seq<Transaction>, i: nat, j: nat)
    requires i < |txs| && j < |txs|
  {
    txs[i].txid != txs[j].txid
  }

  /** The registrations of the first `n` transactions. */
  function Registered(txs: seq<Transaction>, n: nat): BitAssets.Registrations
    requires n <= |txs|
  {
    if n == 0 then BitAssets.Nothing else Registered(txs, n - 1).Plus(Effects.RegisteredBy(txs[n - 1]))
  }

  function BlockRegisters(b: Body): BitAssets.Registrations
  {
    Registered(b.transactions, |b.transactions|)
  }

  /** The block registers distinct new assets, each at a count at which the next number is free. */
  ghost predicate RegistersNew(s: StateDb, b: Body) {
    BitAssets.RegistrationsFit(s.effects.assets, BlockRegisters(b))
  }

  /** The txids and outpoints of a block are new to the state, and stored reservations match their outputs. */
  ghost predicate BlockFresh(s: StateDb, h: Header, b: Body) {
    && DistinctIds(b.transactions) && FreshFrom(s, b.transactions, 0)
    && (forall i | 0 <= i < |b.transactions| :: NoReservationOf(s.coins.utxos, b.transactions[i].txid))
    && Coins.Unplaced(s.coins, Coins.FromCoinbase(h.coinbaseTxid))
    && ReservationsMatch(s.coins.utxos, s.effects)
  }
}
