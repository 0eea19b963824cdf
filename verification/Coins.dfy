/**
 Unspent and spent outputs: what a transaction's inputs and outputs do to the
 two tables, and how that is taken back.
 */
module Coins {
  import opened Wrappers
  import opened ChainTypes
  import opened Transactions

  datatype Error = NoUtxo(outpoint: OutPoint) | NoStxo(outpoint: OutPoint) | WrongInPoint

  datatype Coins = Coins(utxos: map<OutPoint, FilledOutput>, stxos: map<OutPoint, SpentOutput>)

  ghost predicate Disjoint(c: Coins) {
    forall o | o in c.utxos :: o !in c.stxos
  }

  /** Where outputs come from: a transaction or a coinbase. */
  datatype Origin = FromTx(txid: Txid) | FromCoinbase(coinbase: Txid)

  function Place(origin: Origin, vout: nat): OutPoint {
    match origin
    case FromTx(t) => Regular(t, vout)
    case FromCoinbase(t) => Coinbase(t, vout)
  }

  /** No output of this origin exists yet. */
  ghost predicate Unplaced(c: Coins, origin: Origin) {
    forall v: nat :: Place(origin, v) !in c.utxos && Place(origin, v) !in c.stxos
  }

  // ---- looking up the outputs that a transaction spends ----

  /** The outputs that the first `n` inputs spend. */
  function FillFrom(utxos: map<OutPoint, FilledOutput>, inputs: seq<OutPoint>, n: nat)
    : (r: Result<seq<FilledOutput>, Error>)
    requires n <= |inputs|
    ensures r.Ok? <==> forall i | 0 <= i < n :: inputs[i] in utxos
    ensures r.Ok? ==> |r.value| == n && forall i | 0 <= i < n :: r.value[i] == utxos[inputs[i]]
    ensures r.Err? ==> r.error.NoUtxo? && r.error.outpoint in inputs && r.error.outpoint !in utxos
  {
    if n == 0 then Ok([])
    else
      var before :- FillFrom(utxos, inputs, n - 1);
      if inputs[n - 1] in utxos then Ok(before + [utxos[inputs[n - 1]]]) else Err(NoUtxo(inputs[n - 1]))
  }

  function Fill(c: Coins, tx: Transaction): Result<FilledTransaction, Error> {
    var spent :- FillFrom(c.utxos, tx.inputs, |tx.inputs|);
    Ok(FilledTransaction(tx, spent))
  }

  /** The outputs that inputs `n` and later spent, looked up from the last input backwards. */
  function FillSpentFrom(stxos: map<OutPoint, SpentOutput>, tx: Transaction, n: nat)
    : (r: Result<seq<FilledOutput>, Error>)
    requires n <= |tx.inputs|
    ensures r.Ok? <==> forall i | n <= i < |tx.inputs| :: SpentHere(stxos, tx, i)
    ensures r.Ok? ==> |r.value| == |tx.inputs| - n
                      && forall i | n <= i < |tx.inputs| ::
                         tx.inputs[i] in stxos && r.value[i - n] == stxos[tx.inputs[i]].output
    decreases |tx.inputs| - n
  {
    if n == |tx.inputs| then Ok([])
    else
      var after :- FillSpentFrom(stxos, tx, n + 1);
      assert SpentHere(stxos, tx, n) || !SpentHere(stxos, tx, n);
      if tx.inputs[n] !in stxos then Err(NoStxo(tx.inputs[n]))
      else if stxos[tx.inputs[n]].inpoint != RegularIn(tx.txid, n) then Err(WrongInPoint)
      else Ok([stxos[tx.inputs[n]].output] + after)
  }

  predicate SpentHere(stxos: map<OutPoint, SpentOutput>, tx: Transaction, vin: nat)
    requires vin < |tx.inputs|
  {
    tx.inputs[vin] in stxos && stxos[tx.inputs[vin]].inpoint == RegularIn(tx.txid, vin)
  }

  function FillSpent(c: Coins, tx: Transaction): Result<FilledTransaction, Error> {
    var spent :- FillSpentFrom(c.stxos, tx, 0);
    Ok(FilledTransaction(tx, spent))
  }

  // ---- spending ----

  /** Move the output at `o` from unspent to spent. */
  function SpendOne(c: Coins, o: OutPoint, at: InPoint): Result<Coins, Error> {
    if o !in c.utxos then Err(NoUtxo(o))
    else Ok(Coins(c.utxos - {o}, c.stxos[o := SpentOutput(c.utxos[o], at)]))
  }

  function UnspendOne(c: Coins, o: OutPoint): Result<Coins, Error> {
    if o !in c.stxos then Err(NoStxo(o))
    else Ok(Coins(c.utxos[o := c.stxos[o].output], c.stxos - {o}))
  }

  /** Spend the first `n` inputs, in order. */
  function Spend(c: Coins, tx: Transaction, n: nat): Result<Coins, Error>
    requires n <= |tx.inputs|
  {
    if n == 0 then Ok(c)
    else
      var d :- Spend(c, tx, n - 1);
      SpendOne(d, tx.inputs[n - 1], RegularIn(tx.txid, n - 1))
  }

  /** Take back the first `n` inputs, last first. */
  function Unspend(c: Coins, tx: Transaction, n: nat): Result<Coins, Error>
    requires n <= |tx.inputs|
    decreases n
  {
    if n == 0 then Ok(c)
    else
      var d :- UnspendOne(c, tx.inputs[n - 1]);
      Unspend(d, tx, n - 1)
  }

  /** The outpoints of the first `n` inputs. */
  function Inputs(tx: Transaction, n: nat): set<OutPoint>
    requires n <= |tx.inputs|
  {
    set i | 0 <= i < n :: tx.inputs[i]
  }

  /** What spending the first `n` inputs amounts to. */
  ghost predicate SpendExact(c: Coins, d: Coins, tx: Transaction, n: nat)
    requires n <= |tx.inputs|
  {
    && d.utxos.Keys == c.utxos.Keys - Inputs(tx, n)
    && (forall o | o in d.utxos :: d.utxos[o] == c.utxos[o])
    && d.stxos.Keys == c.stxos.Keys + Inputs(tx, n)
    && (forall i | 0 <= i < n :: SpentAs(c, d, tx, i))
    && (forall o | o in c.stxos && o !in Inputs(tx, n) :: d.stxos[o] == c.stxos[o])
  }

  /** Input `vin` spent the output that was unspent in `c`. */
  ghost predicate SpentAs(c: Coins, d: Coins, tx: Transaction, vin: nat)
    requires vin < |tx.inputs|
  {
    && tx.inputs[vin] in c.utxos && tx.inputs[vin] in d.stxos
    && d.stxos[tx.inputs[vin]] == SpentOutput(c.utxos[tx.inputs[vin]], RegularIn(tx.txid, vin))
  }

  lemma {:induction false} SpendIsExact(c: Coins, tx: Transaction, n: nat)
    requires n <= |tx.inputs| && Spend(c, tx, n).Ok?
    ensures SpendExact(c, Spend(c, tx, n).value, tx, n)
    ensures forall i, j | 0 <= i < j < n :: tx.inputs[i] != tx.inputs[j]
  {
    if n > 0 {
      var d := Spend(c, tx, n - 1).value;
      var e := Spend(c, tx, n).value;
      var o := tx.inputs[n - 1];
      SpendIsExact(c, tx, n - 1);
      assert Inputs(tx, n) == Inputs(tx, n - 1) + {o};
      assert o in c.utxos && forall i | 0 <= i < n - 1 :: tx.inputs[i] != o;
      forall i | 0 <= i < n
        ensures SpentAs(c, e, tx, i)
      {
        assert i < n - 1 ==> SpentAs(c, d, tx, i);
      }
    }
  }

  lemma {:induction false} SpendKeepsDisjoint(c: Coins, tx: Transaction, n: nat)
    requires n <= |tx.inputs| && Disjoint(c) && Spend(c, tx, n).Ok?
    ensures Disjoint(Spend(c, tx, n).value)
  {
    if n > 0 {
      SpendKeepsDisjoint(c, tx, n - 1);
    }
  }

  /** Unspending, last input first, undoes spending. */
  lemma {:induction false} UnspendUndoes(c: Coins, tx: Transaction, n: nat)
    requires n <= |tx.inputs| && Disjoint(c) && Spend(c, tx, n).Ok?
    ensures Unspend(Spend(c, tx, n).value, tx, n) == Ok(c)
  {
    if n > 0 {
      var d := Spend(c, tx, n - 1).value;
      var o := tx.inputs[n - 1];
      SpendKeepsDisjoint(c, tx, n - 1);
      var e := Spend(c, tx, n).value;
      assert e.utxos[o := d.utxos[o]] == d.utxos && e.stxos - {o} == d.stxos;
      UnspendUndoes(c, tx, n - 1);
    }
  }

  /** One more input can be spent exactly when it was unspent at first and is not among those before. */
  lemma SpendsOneMore(c: Coins, tx: Transaction, n: nat)
    requires n < |tx.inputs| && Spend(c, tx, n).Ok?
    ensures Spend(c, tx, n + 1).Ok? <==> tx.inputs[n] in c.utxos && tx.inputs[n] !in Inputs(tx, n)
  {
    SpendIsExact(c, tx, n);
    assert tx.inputs[n] in Spend(c, tx, n).value.utxos <==> tx.inputs[n] in c.utxos.Keys - Inputs(tx, n);
  }

  /** Spending succeeds exactly when the inputs are unspent and distinct. */
  lemma {:induction false} SpendSucceeds(c: Coins, tx: Transaction, n: nat)
    requires n <= |tx.inputs|
    ensures Spend(c, tx, n).Ok? <==>
            (forall i | 0 <= i < n :: tx.inputs[i] in c.utxos)
              && (forall i, j | 0 <= i < j < n :: tx.inputs[i] != tx.inputs[j])
  {
    if n > 0 {
      SpendSucceeds(c, tx, n - 1);
      if Spend(c, tx, n - 1).Ok? {
        SpendsOneMore(c, tx, n - 1);
      }
    }
  }

  // ---- creating ----

  /** Store the first `n` outputs. */
  function Create(c: Coins, origin: Origin, outputs: seq<FilledOutput>, n: nat): Coins
    requires n <= |outputs|
  {
    if n == 0 then c
    else
      var d := Create(c, origin, outputs, n - 1);
      d.(utxos := d.utxos[Place(origin, n - 1) := outputs[n - 1]])
  }

  /** Delete the first `n` outputs, last first. */
  function Uncreate(c: Coins, origin: Origin, n: nat): Result<Coins, Error>
    decreases n
  {
    if n == 0 then Ok(c)
    else if Place(origin, n - 1) !in c.utxos then Err(NoUtxo(Place(origin, n - 1)))
    else Uncreate(c.(utxos := c.utxos - {Place(origin, n - 1)}), origin, n - 1)
  }

  /** The outpoints of the first `n` outputs. */
  function Places(origin: Origin, n: nat): (r: set<OutPoint>)
    ensures forall v: nat :: Place(origin, v) in r <==> v < n
  {
    set v | 0 <= v < n :: Place(origin, v)
  }

  lemma {:induction false} CreateIsExact(c: Coins, origin: Origin, outputs: seq<FilledOutput>, n: nat)
    requires n <= |outputs|
    ensures var d := Create(c, origin, outputs, n);
            && d.stxos == c.stxos && d.utxos.Keys == c.utxos.Keys + Places(origin, n)
            && (forall o | o in c.utxos && o !in Places(origin, n) :: d.utxos[o] == c.utxos[o])
            && forall v | 0 <= v < n :: d.utxos[Place(origin, v)] == outputs[v]
  {
    if n > 0 {
      CreateIsExact(c, origin, outputs, n - 1);
      assert Places(origin, n) == Places(origin, n - 1) + {Place(origin, n - 1)};
    }
  }

  /** Deleting created outputs, last first, undoes their creation. */
  lemma {:induction false} UncreateUndoes(c: Coins, origin: Origin, outputs: seq<FilledOutput>, n: nat)
    requires n <= |outputs| && Unplaced(c, origin)
    ensures Uncreate(Create(c, origin, outputs, n), origin, n) == Ok(c)
  {
    if n > 0 {
      var d := Create(c, origin, outputs, n - 1);
      var p := Place(origin, n - 1);
      CreateIsExact(c, origin, outputs, n - 1);
      assert p !in d.utxos;
      assert d.utxos[p := outputs[n - 1]] - {p} == d.utxos;
      UncreateUndoes(c, origin, outputs, n - 1);
    }
  }
}
