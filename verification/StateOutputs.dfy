/**
 What connecting a block does, stated on the tables alone: which outputs are
 unspent afterwards and what each of them holds, which are spent and where, and
 exactly when a block connects.
 */
module StateOutputs {
  import opened Wrappers
  import opened Arith
  import opened ChainTypes
  import opened Transactions
  import opened StateDb
  import opened StateRoundTrip
  import Batching = StateBatch
  import Coins
  import Effects

  // ---- outpoints of a block ----

  /** One of the first `n` transactions spends `o`. */
  ghost predicate SpentIn(txs: seq<Transaction>, n: nat, o: OutPoint)
    requires n <= |txs|
  {
    exists i :: 0 <= i < n && o in txs[i].inputs
  }

  ghost predicate OutputOf(tx: Transaction, o: OutPoint) {
    o.Regular? && o.txid == tx.txid && o.vout < |tx.outputs|
  }

  /** One of the first `n` transactions creates `o`. */
  ghost predicate CreatedIn(txs: seq<Transaction>, n: nat, o: OutPoint)
    requires n <= |txs|
  {
    exists i :: 0 <= i < n && OutputOf(txs[i], o)
  }

  /** The block's coinbase creates `o`. */
  ghost predicate CoinbaseOf(h: Header, b: Body, o: OutPoint) {
    o.Coinbase? && o.coinbase == h.coinbaseTxid && o.vout < |b.coinbase|
  }

  /** A transaction with the outputs that its inputs spend in `utxos`. */
  ghost function FilledBy(utxos: map<OutPoint, FilledOutput>, tx: Transaction): FilledTransaction
    requires InputsIn(utxos, tx)
  {
    FilledTransaction(tx, seq(|tx.inputs|, i requires 0 <= i < |tx.inputs| => utxos[tx.inputs[i]]))
  }

  /** What the outputs of a transaction hold, if that can be determined for every one of them. */
  ghost predicate ContentsOf(rules: Rules, utxos: map<OutPoint, FilledOutput>, tx: Transaction,
                             contents: seq<FilledContent>) {
    InputsIn(utxos, tx) && rules.contents(FilledBy(utxos, tx)) == Some(contents) && |contents| == |tx.outputs|
  }

  // ---- the tables after some transactions ----

  /** Output `v` of a transaction is unspent in `d`, at its own address, with its own memo and content. */
  ghost predicate OutputStored(rules: Rules, base: map<OutPoint, FilledOutput>, d: Coins.Coins, tx: Transaction, v: nat)
    requires v < |tx.outputs|
  {
    && InputsIn(base, tx) && rules.contents(FilledBy(base, tx)).Some?
    && v < |rules.contents(FilledBy(base, tx)).value|
    && Regular(tx.txid, v) in d.utxos
    && var o := d.utxos[Regular(tx.txid, v)];
    && o.address == tx.outputs[v].address && o.memo == tx.outputs[v].memo
    && o.content == rules.contents(FilledBy(base, tx)).value[v]
  }

  ghost predicate OutputsStored(rules: Rules, base: map<OutPoint, FilledOutput>, d: Coins.Coins, tx: Transaction) {
    forall v {:trigger OutputStored(rules, base, d, tx, v)} | 0 <= v < |tx.outputs| ::
      OutputStored(rules, base, d, tx, v)
  }

  /** Whether `o` is unspent or spent in `d`, coming from `c`; rows that are neither made nor moved are the same. */
  ghost predicate RowAfter(c: Coins.Coins, d: Coins.Coins, txs: seq<Transaction>, n: nat, o: OutPoint)
    requires n <= |txs|
  {
    && (o in d.utxos <==> (o in c.utxos && !SpentIn(txs, n, o)) || CreatedIn(txs, n, o))
    && (o in d.utxos && o in c.utxos ==> d.utxos[o] == c.utxos[o])
    && (o in d.stxos <==> o in c.stxos || SpentIn(txs, n, o))
    && (o in c.stxos && !SpentIn(txs, n, o) ==> o in d.stxos && d.stxos[o] == c.stxos[o])
  }

  ghost predicate RowsAfter(c: Coins.Coins, d: Coins.Coins, txs: seq<Transaction>, n: nat)
    requires n <= |txs|
  {
    forall o {:trigger RowAfter(c, d, txs, n, o)} :: RowAfter(c, d, txs, n, o)
  }

  ghost predicate AllStored(rules: Rules, base: map<OutPoint, FilledOutput>, d: Coins.Coins, txs: seq<Transaction>,
                            n: nat)
    requires n <= |txs|
  {
    forall i {:trigger OutputsStored(rules, base, d, txs[i])} | 0 <= i < n :: OutputsStored(rules, base, d, txs[i])
  }

  ghost predicate AllIn(base: map<OutPoint, FilledOutput>, txs: seq<Transaction>) {
    forall i {:trigger InputsIn(base, txs[i])} | 0 <= i < |txs| :: InputsIn(base, txs[i])
  }

  /** The effects of the first `n` transactions, each filled from `base`. */
  ghost function EffectsAfter(hash: Effects.KeyedHash, base: map<OutPoint, FilledOutput>, e: Effects.Effects,
                              txs: seq<Transaction>, n: nat, height: nat): Result<Effects.Effects, Effects.Error>
    requires n <= |txs| && AllIn(base, txs)
  {
    if n == 0 then Ok(e)
    else
      assert InputsIn(base, txs[n - 1]);
      var before :- EffectsAfter(hash, base, e, txs, n - 1, height);
      Effects.Apply(hash, before, FilledBy(base, txs[n - 1]), height)
  }

  /**
   Transactions that spend what is in `base`, create new outpoints and have
   distinct ids, on top of coins `c` that hold at least `base`.
   */
  ghost predicate Fits(base: map<OutPoint, FilledOutput>, c: Coins.Coins, txs: seq<Transaction>) {
    && AllIn(base, txs) && (forall i | 0 <= i < |txs| :: Coins.Unplaced(c, Coins.FromTx(txs[i].txid)))
    && (forall i, j | 0 <= i < j < |txs| :: txs[i].txid != txs[j].txid)
    && (forall o | o in base :: o in c.utxos && c.utxos[o] == base[o])
  }

  /** What holds after the first `n` transactions. */
  ghost predicate After(rules: Rules, base: map<OutPoint, FilledOutput>, s: StateDb, d: StateDb,
                        txs: seq<Transaction>, n: nat, height: nat)
    requires n <= |txs| && Fits(base, s.coins, txs)
  {
    && RowsAfter(s.coins, d.coins, txs, n) && AllStored(rules, base, d.coins, txs, n) && SpentFrom(base, d, txs, n)
    && EffectsAfter(rules.keyedHash, base, s.effects, txs, n, height) == Ok(d.effects)
    && d.tip == s.tip && d.height == s.height
  }

  lemma NothingAfter(rules: Rules, base: map<OutPoint, FilledOutput>, s: StateDb, txs: seq<Transaction>, height: nat)
    requires Fits(base, s.coins, txs)
    ensures After(rules, base, s, s, txs, 0, height)
  {
    assert forall o :: RowAfter(s.coins, s.coins, txs, 0, o);
  }

  // ---- one more transaction ----

  lemma SpentInNext(txs: seq<Transaction>, n: nat, o: OutPoint)
    requires n < |txs|
    ensures SpentIn(txs, n + 1, o) <==> SpentIn(txs, n, o) || o in txs[n].inputs
  {
  }

  lemma CreatedInNext(txs: seq<Transaction>, n: nat, o: OutPoint)
    requires n < |txs|
    ensures CreatedIn(txs, n + 1, o) <==> CreatedIn(txs, n, o) || OutputOf(txs[n], o)
  {
  }

  lemma SpentInBase(base: map<OutPoint, FilledOutput>, c: Coins.Coins, txs: seq<Transaction>, n: nat, o: OutPoint)
    requires n <= |txs| && Fits(base, c, txs)
    ensures SpentIn(txs, n, o) ==> o in base
  {
    if SpentIn(txs, n, o) {
      var i :| 0 <= i < n && o in txs[i].inputs;
      assert InputsIn(base, txs[i]);
    }
  }

  lemma CreatedIsNew(base: map<OutPoint, FilledOutput>, c: Coins.Coins, txs: seq<Transaction>, n: nat, o: OutPoint)
    requires n <= |txs| && Fits(base, c, txs)
    ensures CreatedIn(txs, n, o) ==> o !in c.utxos && o !in c.stxos
  {
    if CreatedIn(txs, n, o) {
      var i :| 0 <= i < n && OutputOf(txs[i], o);
      assert o == Coins.Place(Coins.FromTx(txs[i].txid), o.vout);
    }
  }

  /** The outpoints of the next transaction are still new. */
  lemma NextUnplaced(base: map<OutPoint, FilledOutput>, c: Coins.Coins, d: Coins.Coins, txs: seq<Transaction>, n: nat)
    requires n < |txs| && Fits(base, c, txs) && RowsAfter(c, d, txs, n)
    ensures Coins.Unplaced(d, Coins.FromTx(txs[n].txid))
  {
    forall v: nat
      ensures Regular(txs[n].txid, v) !in d.utxos && Regular(txs[n].txid, v) !in d.stxos
    {
      var o := Regular(txs[n].txid, v);
      assert RowAfter(c, d, txs, n, o) && o == Coins.Place(Coins.FromTx(txs[n].txid), v);
      SpentInBase(base, c, txs, n, o);
    }
  }

  /** An input is still unspent exactly if no earlier transaction of the block spent it, and then holds what it held. */
  lemma InputHolds(base: map<OutPoint, FilledOutput>, c: Coins.Coins, d: Coins.Coins, txs: seq<Transaction>, n: nat,
                   o: OutPoint)
    requires n <= |txs| && Fits(base, c, txs) && RowsAfter(c, d, txs, n) && o in base
    ensures o in d.utxos <==> !SpentIn(txs, n, o)
    ensures o in d.utxos ==> d.utxos[o] == base[o]
  {
    assert RowAfter(c, d, txs, n, o) && o in c.utxos;
    CreatedIsNew(base, c, txs, n, o);
  }

  lemma FillsAsBase(base: map<OutPoint, FilledOutput>, c: Coins.Coins, d: Coins.Coins, txs: seq<Transaction>, n: nat)
    requires n < |txs| && Fits(base, c, txs) && RowsAfter(c, d, txs, n)
    ensures InputsIn(base, txs[n])
    ensures Coins.Fill(d, txs[n]).Ok? <==> forall v | 0 <= v < |txs[n].inputs| :: !SpentIn(txs, n, txs[n].inputs[v])
    ensures Coins.Fill(d, txs[n]).Ok? ==> Coins.Fill(d, txs[n]) == Ok(FilledBy(base, txs[n]))
  {
    var tx := txs[n];
    assert InputsIn(base, tx);
    forall v | 0 <= v < |tx.inputs|
      ensures tx.inputs[v] in d.utxos <==> !SpentIn(txs, n, tx.inputs[v])
      ensures tx.inputs[v] in d.utxos ==> d.utxos[tx.inputs[v]] == base[tx.inputs[v]]
    {
      InputHolds(base, c, d, txs, n, tx.inputs[v]);
    }
    var r := Coins.FillFrom(d.utxos, tx.inputs, |tx.inputs|);
    if r.Ok? {
      assert r.value == FilledBy(base, tx).spent;
    }
  }

  /** What one transaction does to one row. */
  lemma RowStep(c: Coins.Coins, e: Coins.Coins, d: Coins.Coins, txs: seq<Transaction>, n: nat, o: OutPoint)
    requires n < |txs| && RowAfter(c, e, txs, n, o) && Coins.Unplaced(e, Coins.FromTx(txs[n].txid))
    requires Coins.Unplaced(c, Coins.FromTx(txs[n].txid))
    requires forall v | 0 <= v < |txs[n].inputs| :: txs[n].inputs[v] in e.utxos
    requires o in d.utxos <==> (o in e.utxos && o !in txs[n].inputs) || OutputOf(txs[n], o)
    requires o in e.utxos && o in d.utxos ==> d.utxos[o] == e.utxos[o]
    requires o in d.stxos <==> o in e.stxos || o in txs[n].inputs
    requires o in e.stxos && o !in txs[n].inputs ==> o in d.stxos && d.stxos[o] == e.stxos[o]
    requires CreatedIn(txs, n, o) ==> o !in txs[n].inputs
    ensures RowAfter(c, d, txs, n + 1, o)
  {
    SpentInNext(txs, n, o);
    CreatedInNext(txs, n, o);
    if OutputOf(txs[n], o) {
      assert o == Coins.Place(Coins.FromTx(txs[n].txid), o.vout);
    }
  }

  lemma InputsAreMembers(tx: Transaction, o: OutPoint)
    ensures o in Coins.Inputs(tx, |tx.inputs|) <==> o in tx.inputs
    ensures o in Coins.Places(Coins.FromTx(tx.txid), |tx.outputs|) <==> OutputOf(tx, o)
  {
    if OutputOf(tx, o) {
      assert o == Coins.Place(Coins.FromTx(tx.txid), o.vout);
    }
  }

  /** What a block creates it does not spend. */
  lemma CreatedNotSpent(base: map<OutPoint, FilledOutput>, c: Coins.Coins, txs: seq<Transaction>, n: nat, i: nat,
                        o: OutPoint)
    requires Fits(base, c, txs) && n <= |txs| && CreatedIn(txs, n, o) && i < |txs|
    ensures o !in txs[i].inputs
  {
    var j :| 0 <= j < n && OutputOf(txs[j], o);
    assert o == Coins.Place(Coins.FromTx(txs[j].txid), o.vout) && InputsIn(base, txs[i]);
  }

  lemma RowsNext(rules: Rules, base: map<OutPoint, FilledOutput>, c: Coins.Coins, e: StateDb, d: StateDb,
                 txs: seq<Transaction>, n: nat, height: nat)
    requires n < |txs| && Fits(base, c, txs) && RowsAfter(c, e.coins, txs, n) && StepOk(rules, e, txs[n], height, d)
    ensures RowsAfter(c, d.coins, txs, n + 1)
  {
    NextUnplaced(base, c, e.coins, txs, n);
    ApplyTxCoins(rules, e, txs[n], height);
    ApplyTxParts(rules, e, txs[n], height);
    forall o {:trigger RowAfter(c, d.coins, txs, n + 1, o)}
      ensures RowAfter(c, d.coins, txs, n + 1, o)
    {
      assert RowAfter(c, e.coins, txs, n, o);
      InputsAreMembers(txs[n], o);
      if CreatedIn(txs, n, o) {
        CreatedNotSpent(base, c, txs, n, n, o);
      }
      RowStep(c, e.coins, d.coins, txs, n, o);
    }
  }

  /** The outputs that a transaction just created. */
  lemma OutputsNow(rules: Rules, base: map<OutPoint, FilledOutput>, e: StateDb, d: StateDb, tx: Transaction,
                   height: nat)
    requires StepOk(rules, e, tx, height, d) && InputsIn(base, tx) && Coins.Fill(e.coins, tx) == Ok(FilledBy(base, tx))
    ensures OutputsStored(rules, base, d.coins, tx)
  {
    ApplyTxParts(rules, e, tx, height);
    var outputs := FilledOutputs(rules, FilledBy(base, tx)).value;
    Coins.CreateIsExact(Coins.Spend(e.coins, tx, |tx.inputs|).value, Coins.FromTx(tx.txid), outputs, |tx.outputs|);
    forall v | 0 <= v < |tx.outputs|
      ensures OutputStored(rules, base, d.coins, tx, v)
    {
      assert d.coins.utxos[Coins.Place(Coins.FromTx(tx.txid), v)] == outputs[v];
    }
  }

  /** Outputs that were created earlier in the block stay. */
  lemma OutputsStay(rules: Rules, base: map<OutPoint, FilledOutput>, c: Coins.Coins, e: StateDb, d: StateDb,
                    txs: seq<Transaction>, n: nat, i: nat, height: nat)
    requires i < n < |txs| && Fits(base, c, txs) && RowsAfter(c, e.coins, txs, n) && StepOk(rules, e, txs[n], height, d)
    requires OutputsStored(rules, base, e.coins, txs[i])
    ensures OutputsStored(rules, base, d.coins, txs[i])
  {
    NextUnplaced(base, c, e.coins, txs, n);
    ApplyTxCoins(rules, e, txs[n], height);
    forall v | 0 <= v < |txs[i].outputs|
      ensures OutputStored(rules, base, d.coins, txs[i], v)
    {
      var o := Regular(txs[i].txid, v);
      assert OutputStored(rules, base, e.coins, txs[i], v);
      assert OutputOf(txs[i], o);
      CreatedNotSpent(base, c, txs, n, n, o);
      InputsAreMembers(txs[n], o);
    }
  }

  lemma SpentStay(rules: Rules, base: map<OutPoint, FilledOutput>, c: Coins.Coins, e: StateDb, d: StateDb,
                  txs: seq<Transaction>, n: nat, height: nat)
    requires n < |txs| && Fits(base, c, txs) && RowsAfter(c, e.coins, txs, n) && StepOk(rules, e, txs[n], height, d)
    requires SpentFrom(base, e, txs, n) && Coins.Fill(e.coins, txs[n]).Ok?
    ensures SpentFrom(base, d, txs, n + 1)
  {
    NextUnplaced(base, c, e.coins, txs, n);
    ApplyTxCoins(rules, e, txs[n], height);
    forall i | 0 <= i < n + 1
      ensures SpentBy(base, d, txs[i])
    {
      forall v | 0 <= v < |txs[i].inputs|
        ensures RowKnown(base, d, txs[i], v)
      {
        var o := txs[i].inputs[v];
        assert InputsIn(base, txs[i]);
        InputHolds(base, c, e.coins, txs, n, o);
        InputsAreMembers(txs[n], o);
        if i < n {
          assert SpentBy(base, e, txs[i]) && RowKnown(base, e, txs[i], v) && SpentIn(txs, n, o);
        } else {
          assert RowKnown(e.coins.utxos, d, txs[n], v);
        }
      }
    }
  }

  lemma AfterNext(rules: Rules, base: map<OutPoint, FilledOutput>, s: StateDb, e: StateDb, d: StateDb,
                  txs: seq<Transaction>, n: nat, height: nat)
    requires n < |txs| && Fits(base, s.coins, txs) && After(rules, base, s, e, txs, n, height)
    requires StepOk(rules, e, txs[n], height, d)
    ensures After(rules, base, s, d, txs, n + 1, height)
  {
    ApplyTxParts(rules, e, txs[n], height);
    FillsAsBase(base, s.coins, e.coins, txs, n);
    RowsNext(rules, base, s.coins, e, d, txs, n, height);
    SpentStay(rules, base, s.coins, e, d, txs, n, height);
    forall i | 0 <= i < n + 1
      ensures OutputsStored(rules, base, d.coins, txs[i])
    {
      if i < n {
        OutputsStay(rules, base, s.coins, e, d, txs, n, i, height);
      } else {
        OutputsNow(rules, base, e, d, txs[n], height);
      }
    }
  }

  // ---- when transactions apply ----

  /** Transaction `n` spends nothing twice, its outputs can be filled, and its effect applies after those before it. */
  ghost predicate Applies(rules: Rules, base: map<OutPoint, FilledOutput>, e: Effects.Effects, txs: seq<Transaction>,
                          n: nat, height: nat)
    requires n < |txs| && AllIn(base, txs)
  {
    && (forall v | 0 <= v < |txs[n].inputs| :: !SpentIn(txs, n, txs[n].inputs[v]))
    && (forall u, v | 0 <= u < v < |txs[n].inputs| :: txs[n].inputs[u] != txs[n].inputs[v])
    && (exists contents :: ContentsOf(rules, base, txs[n], contents))
    && EffectsAfter(rules.keyedHash, base, e, txs, n + 1, height).Ok?
  }

  ghost predicate AllApply(rules: Rules, base: map<OutPoint, FilledOutput>, e: Effects.Effects, txs: seq<Transaction>,
                           n: nat, height: nat)
    requires n <= |txs| && AllIn(base, txs)
  {
    forall i: nat {:trigger Applies(rules, base, e, txs, i, height)} | i < n :: Applies(rules, base, e, txs, i, height)
  }

  lemma AppliesExactly(rules: Rules, base: map<OutPoint, FilledOutput>, s: StateDb, e: StateDb,
                       txs: seq<Transaction>, n: nat, height: nat)
    requires n < |txs| && Fits(base, s.coins, txs) && After(rules, base, s, e, txs, n, height)
    ensures ApplyTx(rules, e, txs[n], height).Ok? <==> Applies(rules, base, s.effects, txs, n, height)
  {
    var tx := txs[n];
    FillsAsBase(base, s.coins, e.coins, txs, n);
    Coins.SpendSucceeds(e.coins, tx, |tx.inputs|);
    var f := FilledBy(base, tx);
    assert EffectsAfter(rules.keyedHash, base, s.effects, txs, n + 1, height)
           == Effects.Apply(rules.keyedHash, e.effects, f, height);
    assert FilledOutputs(rules, f).Some? <==> exists contents :: ContentsOf(rules, base, tx, contents) by {
      if FilledOutputs(rules, f).Some? {
        assert ContentsOf(rules, base, tx, rules.contents(f).value);
      }
    }
    if Coins.Fill(e.coins, tx).Ok? {
      FillHasInputs(e.coins, tx);
    }
  }

  lemma FillHasInputs(c: Coins.Coins, tx: Transaction)
    requires Coins.Fill(c, tx).Ok?
    ensures forall v | 0 <= v < |tx.inputs| :: tx.inputs[v] in c.utxos
  {
    assert Coins.FillFrom(c.utxos, tx.inputs, |tx.inputs|).Ok?;
  }

  /** Transactions all apply exactly if each of them does in its place. */
  ghost predicate AppliedUpTo(rules: Rules, base: map<OutPoint, FilledOutput>, s: StateDb, txs: seq<Transaction>,
                              n: nat, height: nat)
    requires n <= |txs| && Fits(base, s.coins, txs)
  {
    && (ApplyTxs(rules, s, txs, n, height).Ok? <==> AllApply(rules, base, s.effects, txs, n, height))
    && (ApplyTxs(rules, s, txs, n, height).Ok? ==>
        After(rules, base, s, ApplyTxs(rules, s, txs, n, height).value, txs, n, height))
  }

  lemma AppliedUpToNext(rules: Rules, base: map<OutPoint, FilledOutput>, s: StateDb, txs: seq<Transaction>, n: nat,
                        height: nat)
    requires n < |txs| && Fits(base, s.coins, txs) && AppliedUpTo(rules, base, s, txs, n, height)
    ensures AppliedUpTo(rules, base, s, txs, n + 1, height)
  {
    assert AllApply(rules, base, s.effects, txs, n + 1, height) <==>
           AllApply(rules, base, s.effects, txs, n, height) && Applies(rules, base, s.effects, txs, n, height);
    if ApplyTxs(rules, s, txs, n, height).Ok? {
      var e := ApplyTxs(rules, s, txs, n, height).value;
      AppliesExactly(rules, base, s, e, txs, n, height);
      if ApplyTx(rules, e, txs[n], height).Ok? {
        AfterNext(rules, base, s, e, ApplyTx(rules, e, txs[n], height).value, txs, n, height);
      }
    }
  }

  ghost function ApplyingUpTo(rules: Rules, base: map<OutPoint, FilledOutput>, s: StateDb, txs: seq<Transaction>,
                              height: nat): nat -> bool
    requires Fits(base, s.coins, txs)
  {
    (n: nat) => n <= |txs| ==> AppliedUpTo(rules, base, s, txs, n, height)
  }

  lemma ApplyingNext(rules: Rules, base: map<OutPoint, FilledOutput>, s: StateDb, txs: seq<Transaction>, n: nat,
                     height: nat)
    requires Fits(base, s.coins, txs)
    ensures Counts(ApplyingUpTo(rules, base, s, txs, height), n)
  {
    if n < |txs| && AppliedUpTo(rules, base, s, txs, n, height) {
      AppliedUpToNext(rules, base, s, txs, n, height);
    }
  }

  lemma TxsApplyExactly(rules: Rules, base: map<OutPoint, FilledOutput>, s: StateDb, txs: seq<Transaction>, height: nat)
    requires Fits(base, s.coins, txs)
    ensures AppliedUpTo(rules, base, s, txs, |txs|, height)
  {
    NothingAfter(rules, base, s, txs, height);
    forall n: nat {:trigger Counts(ApplyingUpTo(rules, base, s, txs, height), n)}
      ensures Counts(ApplyingUpTo(rules, base, s, txs, height), n)
    {
      ApplyingNext(rules, base, s, txs, n, height);
    }
    CountUp(ApplyingUpTo(rules, base, s, txs, height), |txs|);
  }

  // ---- the block ----

  /** A filled content of the same kind and value; only bitcoin and withdrawals are allowed in a coinbase. */
  ghost predicate SameValue(o: OutputContent, f: FilledContent) {
    || (o.BitcoinOut? && f == FilledBitcoin(o.value))
    || (o.WithdrawalOut? && f == FilledWithdrawal(o.value))
  }

  ghost predicate CoinbaseStored(d: Coins.Coins, h: Header, b: Body, v: nat)
    requires v < |b.coinbase|
  {
    && Coinbase(h.coinbaseTxid, v) in d.utxos
    && var o := d.utxos[Coinbase(h.coinbaseTxid, v)];
    && o.address == b.coinbase[v].address && o.memo == b.coinbase[v].memo && SameValue(b.coinbase[v].content, o.content)
  }

  ghost predicate AllCoinbaseStored(d: Coins.Coins, h: Header, b: Body) {
    forall v {:trigger CoinbaseStored(d, h, b, v)} | 0 <= v < |b.coinbase| :: CoinbaseStored(d, h, b, v)
  }

  /** One row of both tables after a block on `c`. */
  ghost predicate BlockRow(c: Coins.Coins, d: Coins.Coins, h: Header, b: Body, o: OutPoint) {
    var txs := b.transactions;
    && (o in d.utxos <==>
        (o in c.utxos && !SpentIn(txs, |txs|, o)) || CreatedIn(txs, |txs|, o) || CoinbaseOf(h, b, o))
    && (o in d.utxos && o in c.utxos ==> d.utxos[o] == c.utxos[o])
    && (o in d.stxos <==> o in c.stxos || SpentIn(txs, |txs|, o))
    && (o in c.stxos && !SpentIn(txs, |txs|, o) ==> o in d.stxos && d.stxos[o] == c.stxos[o])
  }

  /** The block's transactions, each with the outputs it spends in the state before the block. */
  ghost function FilledAll(base: map<OutPoint, FilledOutput>, txs: seq<Transaction>): (r: seq<FilledTransaction>)
    requires AllIn(base, txs)
    ensures |r| == |txs| && forall i | 0 <= i < |txs| :: InputsIn(base, txs[i]) && r[i] == FilledBy(base, txs[i])
  {
    seq(|txs|, i requires 0 <= i < |txs| && InputsIn(base, txs[i]) => FilledBy(base, txs[i]))
  }

  lemma {:induction false} FillsAll(c: Coins.Coins, txs: seq<Transaction>, n: nat)
    requires n <= |txs|
    ensures FillAll(c, txs, n).Ok? <==>
            forall i {:trigger InputsIn(c.utxos, txs[i])} | 0 <= i < n :: InputsIn(c.utxos, txs[i])
  {
    if n > 0 {
      FillsAll(c, txs, n - 1);
      FillsOne(c, txs[n - 1]);
    }
  }

  lemma FillsOne(c: Coins.Coins, tx: Transaction)
    ensures Coins.Fill(c, tx).Ok? <==> InputsIn(c.utxos, tx)
    ensures Coins.Fill(c, tx).Ok? ==> Coins.Fill(c, tx) == Ok(FilledBy(c.utxos, tx))
  {
    if InputsIn(c.utxos, tx) {
      assert Coins.FillFrom(c.utxos, tx.inputs, |tx.inputs|).value == FilledBy(c.utxos, tx).spent;
    }
  }

  lemma FilledAt(c: Coins.Coins, txs: seq<Transaction>, filled: seq<FilledTransaction>, i: nat)
    requires FillAll(c, txs, |txs|) == Ok(filled) && i < |txs|
    ensures |filled| == |txs| && InputsIn(c.utxos, txs[i]) && filled[i] == FilledBy(c.utxos, txs[i])
  {
    FillsOne(c, txs[i]);
  }

  lemma SameSeq<T>(a: seq<T>, b: seq<T>)
    requires |a| == |b| && forall i | 0 <= i < |a| :: a[i] == b[i]
    ensures a == b
  {
  }

  lemma FilledAllIs(c: Coins.Coins, txs: seq<Transaction>, filled: seq<FilledTransaction>)
    requires AllIn(c.utxos, txs) && FillAll(c, txs, |txs|) == Ok(filled)
    ensures filled == FilledAll(c.utxos, txs)
  {
    var all := FilledAll(c.utxos, txs);
    FilledAllCount(c, txs, filled);
    forall i | 0 <= i < |txs|
      ensures filled[i] == all[i]
    {
      FilledAt(c, txs, filled, i);
    }
    SameSeq(filled, all);
  }

  lemma FilledAllCount(c: Coins.Coins, txs: seq<Transaction>, filled: seq<FilledTransaction>)
    requires FillAll(c, txs, |txs|) == Ok(filled)
    ensures |filled| == |txs|
  {
  }

  /** The coinbase adds its outputs and touches nothing else. */
  lemma CoinbaseAdds(s: StateDb, h: Header, b: Body)
    requires Coins.Unplaced(s.coins, Coins.FromCoinbase(h.coinbaseTxid))
    requires CoinbaseOutputs(b.coinbase, |b.coinbase|).Some?
    ensures var d := WithCoinbase(s, h, CoinbaseOutputs(b.coinbase, |b.coinbase|).value);
            && d == s.(coins := d.coins) && d.coins.stxos == s.coins.stxos && AllCoinbaseStored(d.coins, h, b)
            && (forall o :: o in d.coins.utxos <==> o in s.coins.utxos || CoinbaseOf(h, b, o))
            && (forall o | o in s.coins.utxos :: d.coins.utxos[o] == s.coins.utxos[o])
  {
    var outputs := CoinbaseOutputs(b.coinbase, |b.coinbase|).value;
    var origin := Coins.FromCoinbase(h.coinbaseTxid);
    var d := WithCoinbase(s, h, outputs);
    Coins.CreateIsExact(s.coins, origin, outputs, |outputs|);
    forall v | 0 <= v < |b.coinbase|
      ensures CoinbaseStored(d.coins, h, b, v)
    {
      assert d.coins.utxos[Coins.Place(origin, v)] == outputs[v] && CoinbaseOutput(b.coinbase[v]) == Some(outputs[v]);
    }
    forall o
      ensures o in Coins.Places(origin, |outputs|) <==> CoinbaseOf(h, b, o)
    {
      if CoinbaseOf(h, b, o) {
        assert o == Coins.Place(origin, o.vout);
      }
    }
  }

  /** The transactions of a block with new outpoints fit on the state with the coinbase. */
  lemma BlockFits(s: StateDb, h: Header, b: Body)
    requires Batching.CreatesNew(s.coins, h, b) && AllIn(s.coins.utxos, b.transactions)
    requires CoinbaseOutputs(b.coinbase, |b.coinbase|).Some?
    ensures Fits(s.coins.utxos, WithCoinbase(s, h, CoinbaseOutputs(b.coinbase, |b.coinbase|).value).coins,
                 b.transactions)
  {
    CoinbaseAdds(s, h, b);
    var d := WithCoinbase(s, h, CoinbaseOutputs(b.coinbase, |b.coinbase|).value);
    forall i | 0 <= i < |b.transactions|
      ensures Coins.Unplaced(d.coins, Coins.FromTx(b.transactions[i].txid))
    {
      assert Coins.Unplaced(s.coins, Coins.FromTx(b.transactions[i].txid));
    }
  }

  /** No transaction of the block spends or creates an output of its coinbase. */
  lemma CoinbaseApart(s: StateDb, h: Header, b: Body, o: OutPoint)
    requires Batching.CreatesNew(s.coins, h, b) && AllIn(s.coins.utxos, b.transactions) && CoinbaseOf(h, b, o)
    ensures o !in s.coins.utxos && o !in s.coins.stxos
    ensures !SpentIn(b.transactions, |b.transactions|, o) && !CreatedIn(b.transactions, |b.transactions|, o)
  {
    assert o == Coins.Place(Coins.FromCoinbase(h.coinbaseTxid), o.vout);
    forall i | 0 <= i < |b.transactions|
      ensures o !in b.transactions[i].inputs
    {
      assert InputsIn(s.coins.utxos, b.transactions[i]);
    }
  }

  lemma BlockRows(s: StateDb, h: Header, b: Body, d: Coins.Coins, o: OutPoint)
    requires Batching.CreatesNew(s.coins, h, b) && AllIn(s.coins.utxos, b.transactions)
    requires CoinbaseOutputs(b.coinbase, |b.coinbase|).Some?
    requires RowAfter(WithCoinbase(s, h, CoinbaseOutputs(b.coinbase, |b.coinbase|).value).coins, d,
                      b.transactions, |b.transactions|, o)
    ensures BlockRow(s.coins, d, h, b, o)
  {
    CoinbaseAdds(s, h, b);
    if CoinbaseOf(h, b, o) {
      CoinbaseApart(s, h, b, o);
    }
  }

  lemma CoinbaseStays(s: StateDb, h: Header, b: Body, d: Coins.Coins)
    requires Batching.CreatesNew(s.coins, h, b) && AllIn(s.coins.utxos, b.transactions)
    requires CoinbaseOutputs(b.coinbase, |b.coinbase|).Some?
    requires RowsAfter(WithCoinbase(s, h, CoinbaseOutputs(b.coinbase, |b.coinbase|).value).coins, d,
                       b.transactions, |b.transactions|)
    ensures AllCoinbaseStored(d, h, b)
  {
    CoinbaseAdds(s, h, b);
    var c := WithCoinbase(s, h, CoinbaseOutputs(b.coinbase, |b.coinbase|).value).coins;
    forall v | 0 <= v < |b.coinbase|
      ensures CoinbaseStored(d, h, b, v)
    {
      var o := Coinbase(h.coinbaseTxid, v);
      assert CoinbaseStored(c, h, b, v) && CoinbaseOf(h, b, o);
      CoinbaseApart(s, h, b, o);
      assert RowAfter(c, d, b.transactions, |b.transactions|, o);
    }
  }

  /** The tables after a connected block. */
  ghost predicate Connected(rules: Rules, s: StateDb, h: Header, b: Body, t: StateDb)
    requires AllIn(s.coins.utxos, b.transactions)
  {
    var base, txs := s.coins.utxos, b.transactions;
    && t.tip == Some(h.hash) && t.height == Some(if s.height.None? then 0 else s.height.value + 1)
    && (forall o {:trigger BlockRow(s.coins, t.coins, h, b, o)} :: BlockRow(s.coins, t.coins, h, b, o))
    && AllStored(rules, base, t.coins, txs, |txs|) && AllCoinbaseStored(t.coins, h, b) && SpentFrom(base, t, txs, |txs|)
    && EffectsAfter(rules.keyedHash, base, s.effects, txs, |txs|, t.height.value) == Ok(t.effects)
  }

  /** What a block must satisfy to connect. */
  ghost predicate Connectable(rules: Rules, s: StateDb, h: Header, b: Body) {
    var base, txs := s.coins.utxos, b.transactions;
    && s.tip == h.prevSide && AllIn(base, txs)
    && rules.merkleRoot(b.coinbase, FilledAll(base, txs)) == Some(h.merkleRoot)
    && (forall v | 0 <= v < |b.coinbase| :: b.coinbase[v].content.BitcoinOut? || b.coinbase[v].content.WithdrawalOut?)
    && AllApply(rules, base, s.effects, txs, |txs|, if s.height.None? then 0 else s.height.value + 1)
  }

  lemma CoinbaseKinds(b: Body)
    ensures CoinbaseOutputs(b.coinbase, |b.coinbase|).Some? <==>
            forall v | 0 <= v < |b.coinbase| ::
              b.coinbase[v].content.BitcoinOut? || b.coinbase[v].content.WithdrawalOut?
  {
    assert forall v | 0 <= v < |b.coinbase| ::
        CoinbaseOutput(b.coinbase[v]).Some? <==>
          b.coinbase[v].content.BitcoinOut? || b.coinbase[v].content.WithdrawalOut?;
  }

  /** The last step of connecting: everything before it succeeded. */
  lemma TransactionsConnect(rules: Rules, s: StateDb, h: Header, b: Body)
    requires Batching.CreatesNew(s.coins, h, b) && AllIn(s.coins.utxos, b.transactions)
    requires CoinbaseOutputs(b.coinbase, |b.coinbase|).Some?
    ensures var start := WithCoinbase(s, h, CoinbaseOutputs(b.coinbase, |b.coinbase|).value);
            var r := ApplyTxs(rules, start, b.transactions, |b.transactions|, NextHeight(s));
            && (r.Ok? <==> AllApply(rules, s.coins.utxos, s.effects, b.transactions, |b.transactions|, NextHeight(s)))
            && (r.Ok? ==> Connected(rules, s, h, b, r.value.(tip := Some(h.hash), height := Some(NextHeight(s)))))
  {
    var txs := b.transactions;
    var start := WithCoinbase(s, h, CoinbaseOutputs(b.coinbase, |b.coinbase|).value);
    BlockFits(s, h, b);
    CoinbaseAdds(s, h, b);
    TxsApplyExactly(rules, s.coins.utxos, start, txs, NextHeight(s));
    var r := ApplyTxs(rules, start, txs, |txs|, NextHeight(s));
    if r.Ok? {
      AfterIsConnected(rules, s, h, b, start, r.value);
    }
  }

  lemma AfterIsConnected(rules: Rules, s: StateDb, h: Header, b: Body, start: StateDb, d: StateDb)
    requires Batching.CreatesNew(s.coins, h, b) && AllIn(s.coins.utxos, b.transactions)
    requires CoinbaseOutputs(b.coinbase, |b.coinbase|).Some?
    requires start == WithCoinbase(s, h, CoinbaseOutputs(b.coinbase, |b.coinbase|).value)
    requires Fits(s.coins.utxos, start.coins, b.transactions)
    requires After(rules, s.coins.utxos, start, d, b.transactions, |b.transactions|, NextHeight(s))
    ensures Connected(rules, s, h, b, d.(tip := Some(h.hash), height := Some(NextHeight(s))))
  {
    var txs := b.transactions;
    var t := d.(tip := Some(h.hash), height := Some(NextHeight(s)));
    CoinbaseStays(s, h, b, d.coins);
    forall o {:trigger BlockRow(s.coins, t.coins, h, b, o)}
      ensures BlockRow(s.coins, t.coins, h, b, o)
    {
      assert RowAfter(start.coins, d.coins, txs, |txs|, o);
      BlockRows(s, h, b, d.coins, o);
    }
    forall i | 0 <= i < |txs|
      ensures SpentBy(s.coins.utxos, t, txs[i])
    {
      assert SpentBy(s.coins.utxos, d, txs[i]);
      assert forall v | 0 <= v < |txs[i].inputs| ::
          RowKnown(s.coins.utxos, d, txs[i], v) == RowKnown(s.coins.utxos, t, txs[i], v);
    }
  }

  /** Filling and the root, in terms of the unspent outputs. */
  lemma RootExact(rules: Rules, s: StateDb, h: Header, b: Body)
    ensures FillAll(s.coins, b.transactions, |b.transactions|).Ok? <==> AllIn(s.coins.utxos, b.transactions)
    ensures AllIn(s.coins.utxos, b.transactions) ==>
              (CheckRoot(rules, h, b, FillAll(s.coins, b.transactions, |b.transactions|).value).None? <==>
               rules.merkleRoot(b.coinbase, FilledAll(s.coins.utxos, b.transactions)) == Some(h.merkleRoot))
  {
    FillsAll(s.coins, b.transactions, |b.transactions|);
    if AllIn(s.coins.utxos, b.transactions) {
      FilledAllIs(s.coins, b.transactions, FillAll(s.coins, b.transactions, |b.transactions|).value);
    }
  }

  /**
   A block that creates new outpoints connects exactly if it sits on the tip, its
   inputs are unspent, its root agrees, its coinbase holds bitcoin and
   withdrawals only, no output is spent twice, all outputs can be filled and all
   effects apply in order. What is unspent, spent and effected afterwards is then
   fully determined.
   */
  lemma ConnectExact(rules: Rules, s: StateDb, h: Header, b: Body)
    requires Batching.CreatesNew(s.coins, h, b)
    ensures Connect(rules, s, h, b).Ok? <==> Connectable(rules, s, h, b)
    ensures Connect(rules, s, h, b).Ok? ==>
              AllIn(s.coins.utxos, b.transactions) && Connected(rules, s, h, b, Connect(rules, s, h, b).value)
  {
    RootExact(rules, s, h, b);
    CoinbaseKinds(b);
    if AllIn(s.coins.utxos, b.transactions) && CoinbaseOutputs(b.coinbase, |b.coinbase|).Some? {
      TransactionsConnect(rules, s, h, b);
    }
  }
}
