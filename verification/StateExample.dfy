/** A block that registers one name twice: it connects, and disconnecting it does not restore the state. */
module StateExample {
  import opened Wrappers
  import opened Arith
  import opened ChainTypes
  import opened Transactions
  import opened StateDb
  import StateRoundTrip
  import Coins
  import Effects
  import BitAssets

  const OWNER: Address := Address(1)
  const FIRST: Txid := Txid(1)
  const SECOND: Txid := Txid(2)
  const COMMITMENT: int := 7
  const NAME: int := 5

  /** Every commitment is for the one name; the rules accept everything. */
  const RULES: Rules := Rules(
    (f: FilledTransaction) => Some([]),
    (nonce: int, name: int) => COMMITMENT,
    (coinbase: seq<Output>, filled: seq<FilledTransaction>) => Some(0),
    (s: StateDb, f: FilledTransaction) => Some(0),
    (b: Body) => true,
    (b: Body) => true)

  function Reserved(t: Txid): FilledOutput {
    FilledOutput(OWNER, FilledReservation(t, COMMITMENT), 0)
  }

  const ASSETS: BitAssets.Tables :=
    BitAssets.Tables(map[], map[], map[FIRST := COMMITMENT, SECOND := COMMITMENT], map[])

  /** Two reservations are unspent. */
  const BEFORE: StateDb := StateDb(
    None, None,
    Coins.Coins(map[Regular(FIRST, 0) := Reserved(FIRST), Regular(SECOND, 0) := Reserved(SECOND)], map[]),
    Effects.Effects(map[], map[], ASSETS))

  const NO_DATA: BitAssets.PlainData := BitAssets.PlainData(None, None, None, None, None)

  /** Spend the reservation of `from` to register the name. */
  function Register(from: Txid, txid: Txid): Transaction {
    Transaction(txid, [Regular(from, 0)], [], Some(BitAssetRegistration(NAME, 0, NO_DATA, 1)))
  }

  const HEADER: Header := Header(BlockHash(1), 0, None, ZERO_HASH, Txid(20))
  const BODY: Body := Body([], [Register(FIRST, Txid(10)), Register(SECOND, Txid(11))], [])

  lemma OneReservation(t: Txid)
    ensures ReservationsIn([Reserved(t)]) == [(t, COMMITMENT)]
  {
    assert ReservationsIn([]) == [];
    assert [Reserved(t)][1..] == [];
  }

  lemma FillsOne(c: Coins.Coins, from: Txid, txid: Txid)
    requires Regular(from, 0) in c.utxos && c.utxos[Regular(from, 0)] == Reserved(from)
    ensures Coins.Fill(c, Register(from, txid)) == Ok(FilledTransaction(Register(from, txid), [Reserved(from)]))
  {
    var r := Coins.FillFrom(c.utxos, [Regular(from, 0)], 1);
    assert r.value == [Reserved(from)];
  }

  lemma SpendsOne(c: Coins.Coins, from: Txid, txid: Txid)
    requires Regular(from, 0) in c.utxos
    ensures Coins.Spend(c, Register(from, txid), 1) ==
            Ok(Coins.Coins(c.utxos - {Regular(from, 0)},
                           c.stxos[Regular(from, 0) := SpentOutput(c.utxos[Regular(from, 0)], RegularIn(txid, 0))]))
  {
    assert Coins.Spend(c, Register(from, txid), 0) == Ok(c);
  }

  /** Registering succeeds while few assets are registered, and uses up the one reservation. */
  lemma Registers(t: BitAssets.Tables, from: Txid, txid: Txid)
    requires BitAssets.Bijection(t) && |t.toSeq| < 256 && from in t.reservations
    ensures var r := BitAssets.Register(t, BitAssetId(NAME), [(from, COMMITMENT)], COMMITMENT, NO_DATA, 1, txid, 0);
            && r.Ok? && r.value.toSeq.Keys == t.toSeq.Keys + {BitAssetId(NAME)}
            && r.value.reservations == t.reservations - {from}
            && (BitAssetId(NAME) !in t.toSeq ==> BitAssets.Bijection(r.value) && |r.value.toSeq| == |t.toSeq| + 1)
  {
    BitAssets.NextSeqIsCount(t);
    BitAssets.RegisterKeepsBijection(t, BitAssetId(NAME), [(from, COMMITMENT)], COMMITMENT, NO_DATA, 1, txid, 0);
    BitAssets.RegisterSizes(t, BitAssetId(NAME), [(from, COMMITMENT)], COMMITMENT, NO_DATA, 1, txid, 0);
    BitAssets.SmallCountFits(|t.toSeq|);
  }

  /** The registration as an effect of the filled transaction. */
  lemma EffectOfOne(e: Effects.Effects, from: Txid, txid: Txid)
    requires BitAssets.Bijection(e.assets) && |e.assets.toSeq| < 256 && from in e.assets.reservations
    ensures var r := Effects.Apply(RULES.keyedHash, e, FilledTransaction(Register(from, txid), [Reserved(from)]), 0);
            && r.Ok? && r.value.assets.reservations == e.assets.reservations - {from}
            && (BitAssetId(NAME) !in e.assets.toSeq ==>
                  BitAssets.Bijection(r.value.assets) && |r.value.assets.toSeq| == |e.assets.toSeq| + 1)
  {
    OneReservation(from);
    Registers(e.assets, from, txid);
  }

  /** With its reservation unspent, the registration applies with just that effect. */
  lemma AppliesAs(s: StateDb, from: Txid, txid: Txid)
    requires Regular(from, 0) in s.coins.utxos && s.coins.utxos[Regular(from, 0)] == Reserved(from)
    ensures var e := Effects.Apply(RULES.keyedHash, s.effects,
                                   FilledTransaction(Register(from, txid), [Reserved(from)]), 0);
            var r := ApplyTx(RULES, s, Register(from, txid), 0);
            e.Ok? ==> r.Ok? && r.value.coins.utxos == s.coins.utxos - {Regular(from, 0)} && r.value.effects == e.value
  {
    FillsOne(s.coins, from, txid);
    SpendsOne(s.coins, from, txid);
    assert FilledOutputs(RULES, FilledTransaction(Register(from, txid), [Reserved(from)])) == Some([]);
  }

  /** One registration in any state that holds its reservation. */
  lemma AppliesOne(s: StateDb, from: Txid, txid: Txid)
    requires Regular(from, 0) in s.coins.utxos && s.coins.utxos[Regular(from, 0)] == Reserved(from)
    requires BitAssets.Bijection(s.effects.assets) && |s.effects.assets.toSeq| < 256
             && from in s.effects.assets.reservations
    ensures var r := ApplyTx(RULES, s, Register(from, txid), 0);
            && r.Ok? && r.value.coins.utxos == s.coins.utxos - {Regular(from, 0)}
            && r.value.effects.assets.reservations == s.effects.assets.reservations - {from}
            && (BitAssetId(NAME) !in s.effects.assets.toSeq ==>
                  BitAssets.Bijection(r.value.effects.assets)
                    && |r.value.effects.assets.toSeq| == |s.effects.assets.toSeq| + 1)
  {
    EffectOfOne(s.effects, from, txid);
    AppliesAs(s, from, txid);
  }

  lemma FillsBoth()
    ensures FillAll(BEFORE.coins, BODY.transactions, 2).Ok?
  {
    var txs := BODY.transactions;
    FillsOne(BEFORE.coins, FIRST, Txid(10));
    FillsOne(BEFORE.coins, SECOND, Txid(11));
    assert FillAll(BEFORE.coins, txs, 0) == Ok([]);
    assert FillAll(BEFORE.coins, txs, 1).Ok?;
  }

  lemma AppliesBoth()
    ensures ApplyTxs(RULES, BEFORE, BODY.transactions, 2, 0).Ok?
  {
    var txs := BODY.transactions;
    AppliesOne(BEFORE, FIRST, Txid(10));
    assert ApplyTxs(RULES, BEFORE, txs, 0, 0) == Ok(BEFORE);
    var s := ApplyTx(RULES, BEFORE, txs[0], 0).value;
    assert ApplyTxs(RULES, BEFORE, txs, 1, 0) == Ok(s);
    AppliesOne(s, SECOND, Txid(11));
  }

  lemma Connects()
    ensures Connect(RULES, BEFORE, HEADER, BODY).Ok?
  {
    FillsBoth();
    AppliesBoth();
    assert WithCoinbase(BEFORE, HEADER, []) == BEFORE;
  }

  lemma IsFresh()
    ensures Valid(BEFORE) && BlockFresh(BEFORE, HEADER, BODY) && !RegistersNew(BEFORE, BODY)
  {
    var txs := BODY.transactions;
    assert Effects.RegisteredBy(txs[0]) == BitAssets.Then(BitAssets.Nothing, BitAssetId(NAME));
    assert Effects.RegisteredBy(txs[1]) == BitAssets.Then(BitAssets.Nothing, BitAssetId(NAME));
    var one := Registered(txs, 1);
    assert Registered(txs, 0) == BitAssets.Nothing;
    var none := BitAssets.Nothing;
    none.PlusOne(BitAssetId(NAME));
    one.PlusOne(BitAssetId(NAME));
    assert one.Has(BitAssetId(NAME));
  }

  /** The block connects although it registers one name twice, and is not undone. */
  lemma NotRestored()
    ensures Valid(BEFORE) && BlockFresh(BEFORE, HEADER, BODY) && Connect(RULES, BEFORE, HEADER, BODY).Ok?
    ensures Disconnect(RULES, Connect(RULES, BEFORE, HEADER, BODY).value, HEADER, BODY) != Ok(BEFORE)
  {
    IsFresh();
    Connects();
    StateRoundTrip.DisconnectRestoresExactly(RULES, BEFORE, HEADER, BODY);
  }
}
