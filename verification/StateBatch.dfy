/**
 Validating a block up front and connecting it in one sorted batch: the result
 is the same as connecting it one transaction at a time.
 */
module StateBatch {
  import opened Wrappers
  import opened Arith
  import opened ChainTypes
  import opened Transactions
  import opened StateDb
  import opened OutPointOrder
  import Coins
  import Effects

  // ---- validation up front ----

  datatype Prevalidated = Prevalidated(filled: seq<FilledTransaction>, root: int, totalFees: nat, coinbaseValue: nat,
                                       nextHeight: nat)

  function CoinbaseValue(outputs: seq<Output>, n: nat): Result<nat, Error>
    requires n <= |outputs|
  {
    if n == 0 then Ok(0)
    else
      var before :- CoinbaseValue(outputs, n - 1);
      if before + BitcoinValue(outputs[n - 1]) >= U64_LIMIT then Err(AmountOverflow)
         else Ok(before + BitcoinValue(outputs[n - 1]))
  }

  function TotalFees(rules: Rules, s: StateDb, filled: seq<FilledTransaction>, n: nat): Result<nat, Error>
    requires n <= |filled|
  {
    if n == 0 then Ok(0)
    else
      var before :- TotalFees(rules, s, filled, n - 1);
      match rules.fee(s, filled[n - 1])
      case None => Err(InvalidTransaction(filled[n - 1]))
      case Some(fee) => if before + fee >= U64_LIMIT then Err(AmountOverflow) else Ok(before + fee)
  }

  /** The inputs of the first `n` transactions, in order. */
  function AllInputs(txs: seq<Transaction>, n: nat): seq<OutPoint>
    requires n <= |txs|
  {
    if n == 0 then [] else AllInputs(txs, n - 1) + txs[n - 1].inputs
  }

  function AllSpent(filled: seq<FilledTransaction>, n: nat): seq<FilledOutput>
    requires n <= |filled|
  {
    if n == 0 then [] else AllSpent(filled, n - 1) + filled[n - 1].spent
  }

  /** Each authorization, as far as they go, is by the owner of the output spent at its position. */
  predicate AuthorizedByOwners(b: Body, spent: seq<FilledOutput>) {
    forall i | 0 <= i < |b.authorizations| && i < |spent| :: b.authorizations[i] == spent[i].address
  }

  datatype Amounts = Amounts(coinbase: nat, fees: nat)

  /** The checks on a block's amounts, double spends and signatures, once its transactions are filled. */
  function CheckAmounts(rules: Rules, s: StateDb, b: Body, filled: seq<FilledTransaction>): Result<Amounts, Error> {
    var coinbase :- CoinbaseValue(b.coinbase, |b.coinbase|);
    if !Distinct(AllInputs(b.transactions, |b.transactions|)) then Err(UtxoDoubleSpent)
    else
      var fees :- TotalFees(rules, s, filled, |filled|);
      if coinbase > fees then Err(NotEnoughFees)
      else if !AuthorizedByOwners(b, AllSpent(filled, |filled|)) then Err(WrongPubKeyForAddress)
      else if !rules.authorized(b) then Err(Unauthorized)
      else Ok(Amounts(coinbase, fees))
  }

  function Prevalidate(rules: Rules, s: StateDb, h: Header, b: Body): Result<Prevalidated, Error> {
    if !rules.withinSize(b) then Err(BodyTooLarge)
    else if s.tip != h.prevSide then Err(PrevSideHash(s.tip, h.prevSide))
    else
      var filled :- FillAll(s.coins, b.transactions, |b.transactions|);
      if CheckRoot(rules, h, b, filled).Some? then Err(SwapExpected(CheckRoot(rules, h, b, filled).value))
      else
        var amounts :- CheckAmounts(rules, s, b, filled);
        Ok(Prevalidated(filled, h.merkleRoot, amounts.fees, amounts.coinbase, NextHeight(s)))
  }

  // ---- the batch ----

  datatype Batch = Batch(
    deletes: seq<OutPoint>, stxoPuts: seq<(OutPoint, SpentOutput)>, utxoPuts: seq<(OutPoint, FilledOutput)>)

  function GatherInputs(a: Batch, f: FilledTransaction, n: nat): Batch
    requires n <= |f.tx.inputs| == |f.spent|
  {
    if n == 0 then a
    else
      var c := GatherInputs(a, f, n - 1);
      var o := f.tx.inputs[n - 1];
      c.(deletes := c.deletes + [o],
         stxoPuts := c.stxoPuts + [(o, SpentOutput(f.spent[n - 1], RegularIn(f.tx.txid, n - 1)))])
  }

  function GatherOutputs(a: Batch, origin: Coins.Origin, outputs: seq<FilledOutput>, n: nat): Batch
    requires n <= |outputs|
  {
    if n == 0 then a
    else
      var c := GatherOutputs(a, origin, outputs, n - 1);
      c.(utxoPuts := c.utxoPuts + [(Coins.Place(origin, n - 1), outputs[n - 1])])
  }

  datatype Gathered = Gathered(batch: Batch, effects: Effects.Effects)

  function GatherTx(rules: Rules, g: Gathered, f: FilledTransaction, height: nat): Result<Gathered, Error>
    requires |f.tx.inputs| == |f.spent|
  {
    var inputs := GatherInputs(g.batch, f, |f.spent|);
    var outputs := FilledOutputs(rules, f);
    if outputs.None? then Err(FillTxOutputContents(f))
    else
      var effects :- LiftEffect(Effects.Apply(rules.keyedHash, g.effects, f, height));
      Ok(Gathered(GatherOutputs(inputs, Coins.FromTx(f.tx.txid), outputs.value, |outputs.value|), effects))
  }

  predicate WellFilled(filled: seq<FilledTransaction>) {
    forall i | 0 <= i < |filled| :: |filled[i].tx.inputs| == |filled[i].spent|
  }

  function GatherTxs(rules: Rules, g: Gathered, filled: seq<FilledTransaction>, n: nat, height: nat)
    : Result<Gathered, Error>
    requires n <= |filled| && WellFilled(filled)
  {
    if n == 0 then Ok(g)
    else
      var before :- GatherTxs(rules, g, filled, n - 1, height);
      GatherTx(rules, before, filled[n - 1], height)
  }

  /** Write a batch: deletions, then spent outputs, then new outputs. */
  function Written(c: Coins.Coins, a: Batch): Coins.Coins {
    Coins.Coins(PutAll(DeleteAll(c.utxos, a.deletes), a.utxoPuts), PutAll(c.stxos, a.stxoPuts))
  }

  function SortedBatch(a: Batch): Batch {
    Batch(SortBy(a.deletes, Itself()), SortBy(a.stxoPuts, First()), SortBy(a.utxoPuts, First()))
  }

  function CoinbaseBatch(h: Header, outputs: seq<FilledOutput>): Batch {
    GatherOutputs(Batch([], [], []), Coins.FromCoinbase(h.coinbaseTxid), outputs, |outputs|)
  }

  /** Connect a block that was validated up front: gather, sort, write. */
  function ConnectBatched(rules: Rules, s: StateDb, h: Header, b: Body, p: Prevalidated): Result<StateDb, Error>
    requires WellFilled(p.filled)
  {
    var coinbase := CoinbaseOutputs(b.coinbase, |b.coinbase|);
    if coinbase.None? then Err(BadCoinbaseOutputContent)
    else
      var g :- GatherTxs(rules, Gathered(CoinbaseBatch(h, coinbase.value), s.effects), p.filled, |p.filled|,
                         p.nextHeight);
      Ok(StateDb(Some(h.hash), Some(p.nextHeight), Written(s.coins, SortedBatch(g.batch)), g.effects))
  }

  // ---- the batch has the same effect ----

  /** The batch spends outputs unspent in `c`, each once, and creates outputs that are new to `c`. */
  ghost predicate Faithful(c: Coins.Coins, a: Batch) {
    && Distinct(a.deletes) && (forall i | 0 <= i < |a.deletes| :: a.deletes[i] in c.utxos)
    && Keys(a.stxoPuts) == a.deletes && NewKeys(c, a.utxoPuts)
  }

  ghost predicate NewKeys(c: Coins.Coins, rows: seq<(OutPoint, FilledOutput)>) {
    Distinct(Keys(rows)) && forall i | 0 <= i < |rows| :: rows[i].0 !in c.utxos
  }

  /** What unspent outputs look like once a faithful batch is written. */
  lemma WrittenUtxo(c: Coins.Coins, a: Batch, o: OutPoint)
    requires NewKeys(c, a.utxoPuts) && o in c.utxos
    ensures o in Written(c, a).utxos <==> o !in a.deletes
    ensures o !in a.deletes ==> Written(c, a).utxos[o] == c.utxos[o]
  {
    DeleteAllIsMinus(c.utxos, a.deletes);
    PutAllExact(DeleteAll(c.utxos, a.deletes), a.utxoPuts);
    assert o !in Keys(a.utxoPuts);
  }

  /** Deleting a key before or after writing rows under other keys comes to the same. */
  lemma {:induction false} DeleteCommutes<V>(m: map<OutPoint, V>, rows: seq<(OutPoint, V)>, o: OutPoint)
    requires o !in Keys(rows)
    ensures PutAll(m, rows) - {o} == PutAll(m - {o}, rows)
  {
    if rows != [] {
      var before, last := rows[..|rows| - 1], rows[|rows| - 1];
      assert Keys(rows) == Keys(before) + [last.0];
      DeleteCommutes(m, before, o);
      assert PutAll(m, before)[last.0 := last.1] - {o} == (PutAll(m, before) - {o})[last.0 := last.1];
    }
  }

  /** Gathering one more input is spending it. */
  lemma SpendGathered(c: Coins.Coins, a: Batch, o: OutPoint, at: InPoint)
    requires Faithful(c, a) && o in c.utxos && o !in a.deletes
    ensures var d := a.(deletes := a.deletes + [o], stxoPuts := a.stxoPuts + [(o, SpentOutput(c.utxos[o], at))]);
            Faithful(c, d) && Coins.SpendOne(Written(c, a), o, at) == Ok(Written(c, d))
  {
    WrittenUtxo(c, a, o);
    var row := (o, SpentOutput(c.utxos[o], at));
    var d := a.(deletes := a.deletes + [o], stxoPuts := a.stxoPuts + [row]);
    assert o !in Keys(a.utxoPuts);
    DeleteCommutes(DeleteAll(c.utxos, a.deletes), a.utxoPuts, o);
    assert d.deletes[..|d.deletes| - 1] == a.deletes && d.stxoPuts[..|d.stxoPuts| - 1] == a.stxoPuts;
    assert Keys(d.stxoPuts) == Keys(a.stxoPuts) + [o];
  }

  lemma NextInputIsNew(deletes: seq<OutPoint>, inputs: seq<OutPoint>, n: nat)
    requires 0 < n <= |inputs| && Distinct(deletes + inputs)
    ensures inputs[n - 1] !in deletes + inputs[..n - 1]
    ensures deletes + inputs[..n] == deletes + inputs[..n - 1] + [inputs[n - 1]]
  {
    var all := deletes + inputs;
    assert all[|deletes| + n - 1] == inputs[n - 1];
    assert all[..|deletes| + n - 1] == deletes + inputs[..n - 1];
    assert inputs[..n] == inputs[..n - 1] + [inputs[n - 1]];
  }

  lemma {:induction false} SpendAllGathered(c: Coins.Coins, a: Batch, f: FilledTransaction, n: nat)
    requires n <= |f.tx.inputs| == |f.spent| && Faithful(c, a) && Distinct(a.deletes + f.tx.inputs)
    requires forall i | 0 <= i < |f.spent| :: f.tx.inputs[i] in c.utxos && f.spent[i] == c.utxos[f.tx.inputs[i]]
    ensures Faithful(c, GatherInputs(a, f, n)) && GatherInputs(a, f, n).deletes == a.deletes + f.tx.inputs[..n]
    ensures GatherInputs(a, f, n).utxoPuts == a.utxoPuts
    ensures Coins.Spend(Written(c, a), f.tx, n) == Ok(Written(c, GatherInputs(a, f, n)))
  {
    if n == 0 {
      assert a.deletes + f.tx.inputs[..0] == a.deletes;
    } else {
      SpendAllGathered(c, a, f, n - 1);
      NextInputIsNew(a.deletes, f.tx.inputs, n);
      SpendGathered(c, GatherInputs(a, f, n - 1), f.tx.inputs[n - 1], RegularIn(f.tx.txid, n - 1));
    }
  }

  /** Rows gathered so far come from the coinbase or from one of the first `n` transactions. */
  ghost predicate RowsFrom(rows: seq<(OutPoint, FilledOutput)>, txs: seq<Transaction>, n: nat)
    requires n <= |txs|
  {
    forall i | 0 <= i < |rows| :: rows[i].0.Coinbase? || ComesFrom(rows[i].0, txs, n)
  }

  ghost predicate ComesFrom(o: OutPoint, txs: seq<Transaction>, n: nat)
    requires n <= |txs|
  {
    o.Regular? && exists j :: 0 <= j < n && o.txid == txs[j].txid
  }

  /** The rows that gathering outputs appends. */
  lemma {:induction false} GatheredRows(a: Batch, origin: Coins.Origin, outputs: seq<FilledOutput>, n: nat)
    requires n <= |outputs|
    ensures var d := GatherOutputs(a, origin, outputs, n);
            && d.deletes == a.deletes && d.stxoPuts == a.stxoPuts
            && |d.utxoPuts| == |a.utxoPuts| + n && d.utxoPuts[..|a.utxoPuts|] == a.utxoPuts
            && (forall i | |a.utxoPuts| <= i < |d.utxoPuts| :: d.utxoPuts[i].0 == Coins.Place(origin, i - |a.utxoPuts|))
  {
    if n > 0 {
      GatheredRows(a, origin, outputs, n - 1);
    }
  }

  /** Gathering outputs is creating them. */
  lemma {:induction false} CreateGathered(c: Coins.Coins, a: Batch, origin: Coins.Origin, outputs: seq<FilledOutput>,
                                          n: nat)
    requires n <= |outputs|
    ensures Coins.Create(Written(c, a), origin, outputs, n) == Written(c, GatherOutputs(a, origin, outputs, n))
  {
    if n > 0 {
      CreateGathered(c, a, origin, outputs, n - 1);
      var d, e := GatherOutputs(a, origin, outputs, n - 1), GatherOutputs(a, origin, outputs, n);
      assert e.utxoPuts[..|e.utxoPuts| - 1] == d.utxoPuts;
    }
  }

  predicate IsFrom(o: OutPoint, origin: Coins.Origin) {
    match origin
    case FromTx(t) => o.Regular? && o.txid == t
    case FromCoinbase(t) => o.Coinbase? && o.coinbase == t
  }

  /** No row is an output of this origin. */
  ghost predicate NotAt(rows: seq<(OutPoint, FilledOutput)>, origin: Coins.Origin) {
    forall i | 0 <= i < |rows| :: !IsFrom(rows[i].0, origin)
  }

  /** Gathered outputs keep the rows' keys distinct and new. */
  lemma GatheredNew(c: Coins.Coins, a: Batch, origin: Coins.Origin, outputs: seq<FilledOutput>, n: nat)
    requires n <= |outputs| && NewKeys(c, a.utxoPuts) && Coins.Unplaced(c, origin)
    requires NotAt(a.utxoPuts, origin)
    ensures NewKeys(c, GatherOutputs(a, origin, outputs, n).utxoPuts)
  {
    var rows := GatherOutputs(a, origin, outputs, n).utxoPuts;
    GatheredRows(a, origin, outputs, n);
    var m := |a.utxoPuts|;
    assert forall i | 0 <= i < m :: rows[i] == a.utxoPuts[i] && Keys(a.utxoPuts)[i] == rows[i].0;
    forall i, j | 0 <= i < j < |rows|
      ensures rows[i].0 != rows[j].0
    {
    }
  }

  /** Batch rows after the outputs of one more transaction. */
  lemma GatheredFrom(a: Batch, txs: seq<Transaction>, n: nat, outputs: seq<FilledOutput>)
    requires 0 < n <= |txs| && RowsFrom(a.utxoPuts, txs, n - 1)
    ensures RowsFrom(GatherOutputs(a, Coins.FromTx(txs[n - 1].txid), outputs, |outputs|).utxoPuts, txs, n)
  {
    GatheredRows(a, Coins.FromTx(txs[n - 1].txid), outputs, |outputs|);
    var rows := GatherOutputs(a, Coins.FromTx(txs[n - 1].txid), outputs, |outputs|).utxoPuts;
    forall i | 0 <= i < |rows|
      ensures rows[i].0.Coinbase? || ComesFrom(rows[i].0, txs, n)
    {
      if i < |a.utxoPuts| {
        assert rows[i] == a.utxoPuts[i];
        assert rows[i].0.Coinbase? || ComesFrom(rows[i].0, txs, n - 1);
      } else {
        assert rows[i].0.txid == txs[n - 1].txid;
      }
    }
  }

  /** Batch and state agree before a transaction whose txid and inputs are new to the batch. */
  ghost predicate InStep(c: Coins.Coins, t: StateDb, g: Gathered) {
    && Faithful(c, g.batch) && t.coins == Written(c, g.batch) && t.effects == g.effects
  }

  /** `f` is `tx` filled from `c`. */
  ghost predicate FilledIn(c: Coins.Coins, f: FilledTransaction) {
    && |f.tx.inputs| == |f.spent|
    && forall i | 0 <= i < |f.spent| :: f.tx.inputs[i] in c.utxos && f.spent[i] == c.utxos[f.tx.inputs[i]]
  }

  /** Filling a transaction again, halfway through the block, finds what it found before the block. */
  lemma RefillsSame(c: Coins.Coins, a: Batch, f: FilledTransaction)
    requires Faithful(c, a) && FilledIn(c, f) && Distinct(a.deletes + f.tx.inputs)
    ensures Coins.Fill(Written(c, a), f.tx) == Ok(f)
  {
    var utxos := Written(c, a).utxos;
    forall i | 0 <= i < |f.spent|
      ensures f.tx.inputs[i] in utxos && utxos[f.tx.inputs[i]] == f.spent[i]
    {
      NextInputIsNew(a.deletes, f.tx.inputs, i + 1);
      WrittenUtxo(c, a, f.tx.inputs[i]);
    }
    var again := Coins.FillFrom(utxos, f.tx.inputs, |f.tx.inputs|);
    assert again.value == f.spent;
  }

  lemma GatheredFaithful(c: Coins.Coins, a: Batch, origin: Coins.Origin, outputs: seq<FilledOutput>)
    requires Faithful(c, a) && Coins.Unplaced(c, origin) && NotAt(a.utxoPuts, origin)
    ensures Faithful(c, GatherOutputs(a, origin, outputs, |outputs|))
    ensures GatherOutputs(a, origin, outputs, |outputs|).deletes == a.deletes
  {
    GatheredNew(c, a, origin, outputs, |outputs|);
    GatheredRows(a, origin, outputs, |outputs|);
  }

  /** Outputs are gathered as they are created. */
  lemma OutputsInStep(c: Coins.Coins, a: Batch, origin: Coins.Origin, outputs: seq<FilledOutput>)
    requires Faithful(c, a) && Coins.Unplaced(c, origin) && NotAt(a.utxoPuts, origin)
    ensures var b := GatherOutputs(a, origin, outputs, |outputs|);
            && Faithful(c, b) && b.deletes == a.deletes
            && Coins.Create(Written(c, a), origin, outputs, |outputs|) == Written(c, b)
  {
    CreateGathered(c, a, origin, outputs, |outputs|);
    GatheredFaithful(c, a, origin, outputs);
  }

  /** A transaction's inputs are gathered as they are spent. */
  lemma InputsInStep(c: Coins.Coins, a: Batch, f: FilledTransaction)
    requires Faithful(c, a) && FilledIn(c, f) && Distinct(a.deletes + f.tx.inputs)
    ensures Coins.Spend(Written(c, a), f.tx, |f.tx.inputs|) == Ok(Written(c, GatherInputs(a, f, |f.spent|)))
    ensures Faithful(c, GatherInputs(a, f, |f.spent|))
    ensures GatherInputs(a, f, |f.spent|).deletes == a.deletes + f.tx.inputs
    ensures GatherInputs(a, f, |f.spent|).utxoPuts == a.utxoPuts
  {
    SpendAllGathered(c, a, f, |f.spent|);
    assert f.tx.inputs[..|f.spent|] == f.tx.inputs;
  }

  /** What became of a transaction in step: the same error on both sides, or states still in step. */
  ghost predicate SameOutcome(c: Coins.Coins, u: Result<StateDb, Error>, d: Result<Gathered, Error>,
                              deletes: seq<OutPoint>) {
    match u
    case Err(e) => d == Err(e)
    case Ok(t) => d.Ok? && InStep(c, t, d.value) && d.value.batch.deletes == deletes
  }

  /** One transaction keeps batch and state in step, or fails the same way in both. */
  lemma TxInStep(rules: Rules, c: Coins.Coins, t: StateDb, g: Gathered, f: FilledTransaction, height: nat)
    requires InStep(c, t, g) && FilledIn(c, f) && Distinct(g.batch.deletes + f.tx.inputs)
    requires Coins.Unplaced(c, Coins.FromTx(f.tx.txid)) && NotAt(g.batch.utxoPuts, Coins.FromTx(f.tx.txid))
    ensures SameOutcome(c, ApplyTx(rules, t, f.tx, height), GatherTx(rules, g, f, height),
                        g.batch.deletes + f.tx.inputs)
  {
    RefillsSame(c, g.batch, f);
    InputsInStep(c, g.batch, f);
    if FilledOutputs(rules, f).Some? {
      OutputsInStep(c, GatherInputs(g.batch, f, |f.spent|), Coins.FromTx(f.tx.txid), FilledOutputs(rules, f).value);
    }
  }

  // ---- the whole block ----

  ghost predicate FillsOf(c: Coins.Coins, txs: seq<Transaction>, filled: seq<FilledTransaction>) {
    && |filled| == |txs|
    && forall i | 0 <= i < |filled| :: filled[i].tx == txs[i] && FilledIn(c, filled[i])
  }

  /** Outputs that the block creates are new and its txids differ. */
  ghost predicate CreatesNew(c: Coins.Coins, h: Header, b: Body) {
    && (forall i, j | 0 <= i < j < |b.transactions| :: b.transactions[i].txid != b.transactions[j].txid)
    && (forall i | 0 <= i < |b.transactions| :: Coins.Unplaced(c, Coins.FromTx(b.transactions[i].txid)))
    && Coins.Unplaced(c, Coins.FromCoinbase(h.coinbaseTxid))
  }

  lemma {:induction false} AllInputsPrefix(txs: seq<Transaction>, n: nat, m: nat)
    requires n <= m <= |txs| && Distinct(AllInputs(txs, m))
    ensures Distinct(AllInputs(txs, n))
    decreases m
  {
    if n < m {
      var all := AllInputs(txs, m);
      assert all[..|AllInputs(txs, m - 1)|] == AllInputs(txs, m - 1);
      AllInputsPrefix(txs, n, m - 1);
    }
  }

  lemma RowsNotBy(rows: seq<(OutPoint, FilledOutput)>, txs: seq<Transaction>, n: nat)
    requires n < |txs| && RowsFrom(rows, txs, n)
    requires forall i, j | 0 <= i < j < |txs| :: txs[i].txid != txs[j].txid
    ensures NotAt(rows, Coins.FromTx(txs[n].txid))
  {
  }

  lemma GatherTxRows(rules: Rules, g: Gathered, txs: seq<Transaction>, n: nat, f: FilledTransaction, height: nat)
    requires 0 < n <= |txs| && |f.tx.inputs| == |f.spent| && f.tx == txs[n - 1]
    requires RowsFrom(g.batch.utxoPuts, txs, n - 1) && GatherTx(rules, g, f, height).Ok?
    ensures RowsFrom(GatherTx(rules, g, f, height).value.batch.utxoPuts, txs, n)
  {
    GatherInputsRows(g.batch, f, |f.spent|);
    GatheredFrom(GatherInputs(g.batch, f, |f.spent|), txs, n, FilledOutputs(rules, f).value);
  }

  lemma GatherInputsRows(a: Batch, f: FilledTransaction, n: nat)
    requires n <= |f.tx.inputs| == |f.spent|
    ensures GatherInputs(a, f, n).utxoPuts == a.utxoPuts
  {
  }

  ghost predicate BlockOutcome(c: Coins.Coins, u: Result<StateDb, Error>, d: Result<Gathered, Error>,
                               txs: seq<Transaction>, n: nat)
    requires n <= |txs|
  {
    && SameOutcome(c, u, d, AllInputs(txs, n))
    && (d.Ok? ==> RowsFrom(d.value.batch.utxoPuts, txs, n))
  }

  /** What both ways of connecting assume about a block. */
  ghost predicate Batchable(c: Coins.Coins, txs: seq<Transaction>, filled: seq<FilledTransaction>) {
    && FillsOf(c, txs, filled) && WellFilled(filled) && Distinct(AllInputs(txs, |txs|))
    && (forall i, j | 0 <= i < j < |txs| :: txs[i].txid != txs[j].txid)
    && (forall i | 0 <= i < |txs| :: Coins.Unplaced(c, Coins.FromTx(txs[i].txid)))
  }

  lemma NextInStep(rules: Rules, c: Coins.Coins, t: StateDb, g: Gathered,
                   txs: seq<Transaction>, filled: seq<FilledTransaction>, n: nat, height: nat)
    requires n < |txs| && Batchable(c, txs, filled)
    requires InStep(c, t, g) && g.batch.deletes == AllInputs(txs, n) && RowsFrom(g.batch.utxoPuts, txs, n)
    ensures BlockOutcome(c, ApplyTx(rules, t, txs[n], height), GatherTx(rules, g, filled[n], height), txs, n + 1)
  {
    AllInputsPrefix(txs, n + 1, |txs|);
    RowsNotBy(g.batch.utxoPuts, txs, n);
    TxInStep(rules, c, t, g, filled[n], height);
    if GatherTx(rules, g, filled[n], height).Ok? {
      GatherTxRows(rules, g, txs, n + 1, filled[n], height);
    }
  }

  lemma OutcomeNext(rules: Rules, c: Coins.Coins, t: StateDb, g: Gathered,
                    txs: seq<Transaction>, filled: seq<FilledTransaction>, n: nat, height: nat)
    requires n < |txs| && Batchable(c, txs, filled)
    requires BlockOutcome(c, ApplyTxs(rules, t, txs, n, height), GatherTxs(rules, g, filled, n, height), txs, n)
    ensures BlockOutcome(c, ApplyTxs(rules, t, txs, n + 1, height), GatherTxs(rules, g, filled, n + 1, height),
                         txs, n + 1)
  {
    var u := ApplyTxs(rules, t, txs, n, height);
    var d := GatherTxs(rules, g, filled, n, height);
    if u.Ok? {
      NextInStep(rules, c, u.value, d.value, txs, filled, n, height);
    }
  }

  lemma {:induction false} TxsInStep(rules: Rules, c: Coins.Coins, t: StateDb, g: Gathered,
                                     txs: seq<Transaction>, filled: seq<FilledTransaction>, n: nat, height: nat)
    requires n <= |txs| && Batchable(c, txs, filled)
    requires InStep(c, t, g) && g.batch.deletes == [] && RowsFrom(g.batch.utxoPuts, txs, 0)
    ensures BlockOutcome(c, ApplyTxs(rules, t, txs, n, height), GatherTxs(rules, g, filled, n, height), txs, n)
  {
    if n > 0 {
      TxsInStep(rules, c, t, g, txs, filled, n - 1, height);
      OutcomeNext(rules, c, t, g, txs, filled, n - 1, height);
    }
  }

  /** Sorting a faithful batch does not change what it writes. */
  lemma SortedWritesSame(c: Coins.Coins, a: Batch)
    requires Faithful(c, a)
    ensures Written(c, SortedBatch(a)) == Written(c, a)
  {
    var s := SortedBatch(a);
    DeleteAllIsMinus(c.utxos, a.deletes);
    DeleteAllIsMinus(c.utxos, s.deletes);
    assert (set k | k in a.deletes) == (set k | k in s.deletes) by {
      forall k: OutPoint
        ensures k in a.deletes <==> k in s.deletes
      {
        SameMember(a.deletes, s.deletes, k);
      }
    }
    PutAllPermuted(DeleteAll(c.utxos, a.deletes), a.utxoPuts, s.utxoPuts);
    PutAllPermuted(c.stxos, a.stxoPuts, s.stxoPuts);
  }

  lemma {:induction false} FillAllFills(c: Coins.Coins, txs: seq<Transaction>)
    requires FillAll(c, txs, |txs|).Ok?
    ensures FillsOf(c, txs, FillAll(c, txs, |txs|).value)
  {
    var filled := FillAll(c, txs, |txs|).value;
    forall i | 0 <= i < |filled|
      ensures filled[i].tx == txs[i] && FilledIn(c, filled[i])
    {
      assert Coins.Fill(c, txs[i]) == Ok(filled[i]);
    }
  }

  /** The coinbase puts batch and state in step. */
  lemma CoinbaseInStep(s: StateDb, h: Header, outputs: seq<FilledOutput>)
    requires Coins.Unplaced(s.coins, Coins.FromCoinbase(h.coinbaseTxid))
    ensures InStep(s.coins, WithCoinbase(s, h, outputs), Gathered(CoinbaseBatch(h, outputs), s.effects))
    ensures CoinbaseBatch(h, outputs).deletes == []
    ensures forall i | 0 <= i < |CoinbaseBatch(h, outputs).utxoPuts| ::
      CoinbaseBatch(h, outputs).utxoPuts[i].0.Coinbase?
  {
    var none := Batch([], [], []);
    var origin := Coins.FromCoinbase(h.coinbaseTxid);
    CreateGathered(s.coins, none, origin, outputs, |outputs|);
    GatheredNew(s.coins, none, origin, outputs, |outputs|);
    GatheredRows(none, origin, outputs, |outputs|);
  }

  /**
   A validated block connects to the same state, or fails with the same error, in
   one sorted batch as one transaction at a time.
   */
  lemma BatchedIsSequential(rules: Rules, s: StateDb, h: Header, b: Body)
    requires Prevalidate(rules, s, h, b).Ok? && CreatesNew(s.coins, h, b)
    ensures WellFilled(Prevalidate(rules, s, h, b).value.filled)
    ensures ConnectBatched(rules, s, h, b, Prevalidate(rules, s, h, b).value) == Connect(rules, s, h, b)
  {
    var p := Prevalidate(rules, s, h, b).value;
    var txs := b.transactions;
    FillAllFills(s.coins, txs);
    var coinbase := CoinbaseOutputs(b.coinbase, |b.coinbase|);
    if coinbase.Some? {
      var start := WithCoinbase(s, h, coinbase.value);
      var g := Gathered(CoinbaseBatch(h, coinbase.value), s.effects);
      CoinbaseInStep(s, h, coinbase.value);
      TxsInStep(rules, s.coins, start, g, txs, p.filled, |txs|, NextHeight(s));
      var d := GatherTxs(rules, g, p.filled, |txs|, NextHeight(s));
      if d.Ok? {
        SortedWritesSame(s.coins, d.value.batch);
      }
    }
  }

  /** A validated block sits on the current tip. */
  lemma PrevalidatedTip(rules: Rules, s: StateDb, h: Header, b: Body)
    requires Prevalidate(rules, s, h, b).Ok?
    ensures s.tip == h.prevSide && Prevalidate(rules, s, h, b).value.nextHeight == NextHeight(s)
  {
  }

  lemma BatchedTip(rules: Rules, s: StateDb, h: Header, b: Body, p: Prevalidated)
    requires WellFilled(p.filled) && ConnectBatched(rules, s, h, b, p).Ok?
    ensures ConnectBatched(rules, s, h, b, p).value.tip == Some(h.hash)
    ensures ConnectBatched(rules, s, h, b, p).value.height == Some(p.nextHeight)
  {
  }
}
