/**
 Disconnecting a block restores exactly the state from before it was connected.
 */
module StateRoundTrip {
  import opened Wrappers
  import opened ChainTypes
  import opened Transactions
  import opened StateDb
  import Coins
  import Effects
  import BitAssets
  import opened KeyOrder

  /** Outputs that were unspent in `base` and still are have not changed. */
  ghost predicate Agrees(base: map<OutPoint, FilledOutput>, s: StateDb) {
    forall o | o in base && o in s.coins.utxos :: s.coins.utxos[o] == base[o]
  }

  /** The first `n` transactions spent what was unspent in `base`. */
  ghost predicate SpentFrom(base: map<OutPoint, FilledOutput>, s: StateDb, txs: seq<Transaction>, n: nat)
    requires n <= |txs|
  {
    forall i | 0 <= i < n :: SpentBy(base, s, txs[i])
  }

  ghost predicate SpentBy(base: map<OutPoint, FilledOutput>, s: StateDb, tx: Transaction) {
    forall v | 0 <= v < |tx.inputs| :: RowKnown(base, s, tx, v)
  }

  ghost predicate RowKnown(base: map<OutPoint, FilledOutput>, s: StateDb, tx: Transaction, vin: nat)
    requires vin < |tx.inputs|
  {
    var o := tx.inputs[vin];
    o in base && o in s.coins.stxos && s.coins.stxos[o] == SpentOutput(base[o], RegularIn(tx.txid, vin))
  }

  ghost predicate InputsIn(base: map<OutPoint, FilledOutput>, tx: Transaction) {
    forall v | 0 <= v < |tx.inputs| :: tx.inputs[v] in base
  }

  /** The unspent outputs and the asset tables before a block. */
  datatype Base = Base(utxos: map<OutPoint, FilledOutput>, assets: BitAssets.Tables)

  /** What holds between the transactions of a block whose inputs were all unspent in `base`. */
  ghost predicate Ready(base: Base, s: StateDb, txs: seq<Transaction>, n: nat)
    requires n <= |txs|
  {
    && Coins.Disjoint(s.coins) && Effects.PoolsSound(s.effects.pools)
    && Agrees(base.utxos, s) && FreshFrom(s, txs, n) && ReservationsMatch(base.utxos, s.effects)
    && BitAssets.Grown(base.assets, s.effects.assets, Registered(txs, n))
  }

  /** What a block's transactions bring along, whatever the state. */
  ghost predicate Given(base: Base, txs: seq<Transaction>) {
    && DistinctIds(txs) && BitAssets.RegistrationsFit(base.assets, Registered(txs, |txs|))
    && (forall i {:trigger GivenTx(base.utxos, txs[i])} | 0 <= i < |txs| :: GivenTx(base.utxos, txs[i]))
  }

  ghost predicate GivenTx(base: map<OutPoint, FilledOutput>, tx: Transaction) {
    InputsIn(base, tx) && NoReservationOf(base, tx.txid) && NothingOf(base, tx.txid)
  }

  /** Registrations that fit as a whole fit from the start. */
  lemma {:induction false} RegisteredFitsUpTo(t: BitAssets.Tables, txs: seq<Transaction>, n: nat, m: nat)
    requires n <= m <= |txs| && BitAssets.RegistrationsFit(t, Registered(txs, m))
    ensures BitAssets.RegistrationsFit(t, Registered(txs, n))
    decreases m
  {
    if n < m {
      BitAssets.FitInParts(t, t, Registered(txs, m - 1), Effects.RegisteredBy(txs[m - 1]));
      RegisteredFitsUpTo(t, txs, n, m - 1);
    }
  }

  /** The registration that is due next is of a new asset at a free number. */
  lemma NextRegistrable(base: Base, s: StateDb, txs: seq<Transaction>, n: nat)
    requires n < |txs| && Given(base, txs) && BitAssets.Grown(base.assets, s.effects.assets, Registered(txs, n))
    ensures Effects.Registrable(s.effects, txs[n]) && BitAssets.Bijection(s.effects.assets)
  {
    RegisteredFitsUpTo(base.assets, txs, n, |txs|);
    assert BitAssets.GrownWell(base.assets, s.effects.assets, Registered(txs, n));
    if Effects.Registers(txs[n]).Some? {
      RegisteredFitsUpTo(base.assets, txs, n + 1, |txs|);
      Registered(txs, n).PlusOne(Effects.Registers(txs[n]).value);
      BitAssets.NextFits(base.assets, s.effects.assets, Registered(txs, n), Effects.Registers(txs[n]).value);
    }
  }

  ghost predicate NothingOf(base: map<OutPoint, FilledOutput>, txid: Txid) {
    forall v: nat :: Regular(txid, v) !in base
  }

  // ---- one transaction ----

  /** What applying a transaction amounts to. */
  lemma ApplyTxParts(rules: Rules, s: StateDb, tx: Transaction, height: nat)
    requires ApplyTx(rules, s, tx, height).Ok?
    ensures Coins.Fill(s.coins, tx).Ok? && Coins.Spend(s.coins, tx, |tx.inputs|).Ok?
    ensures var f := Coins.Fill(s.coins, tx).value;
            && FilledOutputs(rules, f).Some? && Effects.Apply(rules.keyedHash, s.effects, f, height).Ok?
            && ApplyTx(rules, s, tx, height).value ==
               s.(coins := Coins.Create(Coins.Spend(s.coins, tx, |tx.inputs|).value, Coins.FromTx(tx.txid),
                                        FilledOutputs(rules, f).value, |tx.outputs|),
                  effects := Effects.Apply(rules.keyedHash, s.effects, f, height).value)
  {
  }

  /** A transaction's effect on coins: inputs spent, outputs placed, nothing else. */
  lemma ApplyTxCoins(rules: Rules, s: StateDb, tx: Transaction, height: nat)
    requires ApplyTx(rules, s, tx, height).Ok?
    requires Coins.Unplaced(s.coins, Coins.FromTx(tx.txid))
    ensures var d := ApplyTx(rules, s, tx, height).value;
            && d.coins.utxos.Keys ==
               s.coins.utxos.Keys - Coins.Inputs(tx, |tx.inputs|) + Coins.Places(Coins.FromTx(tx.txid), |tx.outputs|)
            && d.coins.stxos.Keys == s.coins.stxos.Keys + Coins.Inputs(tx, |tx.inputs|)
            && (forall o | o in s.coins.utxos && o in d.coins.utxos :: d.coins.utxos[o] == s.coins.utxos[o])
            && (forall o | o in s.coins.stxos && o !in Coins.Inputs(tx, |tx.inputs|) ::
                d.coins.stxos[o] == s.coins.stxos[o])
    ensures SpentBy(s.coins.utxos, ApplyTx(rules, s, tx, height).value, tx)
  {
    var n := |tx.inputs|;
    ApplyTxParts(rules, s, tx, height);
    var f := Coins.Fill(s.coins, tx).value;
    var c := Coins.Spend(s.coins, tx, n).value;
    var d := ApplyTx(rules, s, tx, height).value;
    Coins.SpendIsExact(s.coins, tx, n);
    Coins.CreateIsExact(c, Coins.FromTx(tx.txid), FilledOutputs(rules, f).value, |tx.outputs|);
    assert Coins.Places(Coins.FromTx(tx.txid), |tx.outputs|) !! s.coins.utxos.Keys;
    forall v | 0 <= v < n
      ensures RowKnown(s.coins.utxos, d, tx, v)
    {
      assert Coins.SpentAs(s.coins, c, tx, v);
    }
  }

  /** The outputs that a transaction spends hold what they held in `base`. */
  lemma FilledReservations(base: map<OutPoint, FilledOutput>, s: StateDb, tx: Transaction, r: (Txid, int))
    requires InputsIn(base, tx) && Agrees(base, s) && Coins.Fill(s.coins, tx).Ok?
    requires r in Coins.Fill(s.coins, tx).value.SpentReservations()
    ensures exists o :: o in base && base[o].content == FilledReservation(r.0, r.1)
  {
    var f := Coins.Fill(s.coins, tx).value;
    var i :| 0 <= i < |f.spent| && f.spent[i].content == FilledReservation(r.0, r.1);
    assert f.spent[i] == s.coins.utxos[tx.inputs[i]] && tx.inputs[i] in base;
  }

  lemma EffectIsFresh(base: map<OutPoint, FilledOutput>, s: StateDb, tx: Transaction)
    requires InputsIn(base, tx) && Agrees(base, s) && ReservationsMatch(base, s.effects)
    requires NewTx(s, tx.txid) && Coins.Fill(s.coins, tx).Ok?
             && s.effects.assets.data.Keys == s.effects.assets.toSeq.Keys
    ensures Effects.Fresh(s.effects, Coins.Fill(s.coins, tx).value)
  {
    var f := Coins.Fill(s.coins, tx).value;
    forall r | r in f.SpentReservations() && r.0 in s.effects.assets.reservations
      ensures s.effects.assets.reservations[r.0] == r.1
    {
      FilledReservations(base, s, tx, r);
    }
  }

  lemma AgreesKept(base: map<OutPoint, FilledOutput>, rules: Rules, s: StateDb, tx: Transaction, height: nat)
    requires Agrees(base, s) && NothingOf(base, tx.txid) && Coins.Unplaced(s.coins, Coins.FromTx(tx.txid))
    requires ApplyTx(rules, s, tx, height).Ok?
    ensures Agrees(base, ApplyTx(rules, s, tx, height).value)
  {
    ApplyTxCoins(rules, s, tx, height);
  }

  lemma DisjointKept(rules: Rules, s: StateDb, tx: Transaction, height: nat)
    requires Coins.Disjoint(s.coins) && Coins.Unplaced(s.coins, Coins.FromTx(tx.txid))
    requires ApplyTx(rules, s, tx, height).Ok?
    ensures Coins.Disjoint(ApplyTx(rules, s, tx, height).value.coins)
  {
    ApplyTxCoins(rules, s, tx, height);
    assert forall v | 0 <= v < |tx.inputs| :: RowKnown(s.coins.utxos, ApplyTx(rules, s, tx, height).value, tx, v);
  }

  lemma MatchKept(base: map<OutPoint, FilledOutput>, rules: Rules, s: StateDb, tx: Transaction, height: nat)
    requires ReservationsMatch(base, s.effects) && NoReservationOf(base, tx.txid)
    requires ApplyTx(rules, s, tx, height).Ok?
    ensures ReservationsMatch(base, ApplyTx(rules, s, tx, height).value.effects)
  {
    ApplyTxParts(rules, s, tx, height);
    var f := Coins.Fill(s.coins, tx).value;
    var e := ApplyTx(rules, s, tx, height).value.effects;
    forall o | o in base && base[o].content.FilledReservation? && base[o].content.txid in e.assets.reservations
      ensures e.assets.reservations[base[o].content.txid] == base[o].content.commitment
    {
      Effects.ReservationsUseOwnTxid(rules.keyedHash, s.effects, f, height, base[o].content.txid);
    }
  }

  lemma NewTxKept(rules: Rules, s: StateDb, tx: Transaction, height: nat, txid: Txid)
    requires Coins.Unplaced(s.coins, Coins.FromTx(tx.txid)) && ApplyTx(rules, s, tx, height).Ok?
    requires NewTx(s, txid) && txid != tx.txid
    ensures NewTx(ApplyTx(rules, s, tx, height).value, txid)
  {
    ApplyTxParts(rules, s, tx, height);
    ApplyTxCoins(rules, s, tx, height);
    var f := Coins.Fill(s.coins, tx).value;
    var e := ApplyTx(rules, s, tx, height).value;
    Effects.PoolsUseOwnTxid(rules.keyedHash, s.effects, f, height, txid);
    Effects.AuctionsUseOwnTxid(rules.keyedHash, s.effects, f, height, txid);
    if txid in e.effects.assets.reservations {
      Effects.ReservationsUseOwnTxid(rules.keyedHash, s.effects, f, height, txid);
    }
    forall v: nat
      ensures Regular(txid, v) !in e.coins.utxos && Regular(txid, v) !in e.coins.stxos
    {
      assert Regular(txid, v) == Coins.Place(Coins.FromTx(txid), v);
    }
  }

  /** Between transactions the block stays ready. */
  lemma ReadyStep(base: Base, rules: Rules, s: StateDb, txs: seq<Transaction>, n: nat, height: nat)
    requires n < |txs| && Given(base, txs) && Ready(base, s, txs, n) && ApplyTx(rules, s, txs[n], height).Ok?
    ensures Ready(base, ApplyTx(rules, s, txs[n], height).value, txs, n + 1)
  {
    var d := ApplyTx(rules, s, txs[n], height).value;
    ApplyTxParts(rules, s, txs[n], height);
    var f := Coins.Fill(s.coins, txs[n]).value;
    assert NewTx(s, txs[n].txid) && GivenTx(base.utxos, txs[n]);
    AgreesKept(base.utxos, rules, s, txs[n], height);
    DisjointKept(rules, s, txs[n], height);
    MatchKept(base.utxos, rules, s, txs[n], height);
    NextRegistrable(base, s, txs, n);
    EffectIsFresh(base.utxos, s, txs[n]);
    Effects.EffectUndone(rules.keyedHash, s.effects, f, height);
    Effects.NumbersGrow(rules.keyedHash, base.assets, Registered(txs, n), s.effects, f, height);
    forall i | n + 1 <= i < |txs|
      ensures NewTx(d, txs[i].txid)
    {
      assert Apart(txs, n, i);
      NewTxKept(rules, s, txs[n], height, txs[i].txid);
    }
  }

  /** Rows of the spent table are not overwritten later. */
  lemma SpentKept(base: map<OutPoint, FilledOutput>, rules: Rules, s: StateDb, earlier: Transaction, tx: Transaction,
                  height: nat)
    requires Coins.Disjoint(s.coins) && Coins.Unplaced(s.coins, Coins.FromTx(tx.txid))
    requires SpentBy(base, s, earlier) && ApplyTx(rules, s, tx, height).Ok?
    ensures SpentBy(base, ApplyTx(rules, s, tx, height).value, earlier)
  {
    ApplyTxCoins(rules, s, tx, height);
    var d := ApplyTx(rules, s, tx, height).value;
    assert forall v | 0 <= v < |tx.inputs| :: RowKnown(s.coins.utxos, d, tx, v);
    forall v | 0 <= v < |earlier.inputs|
      ensures RowKnown(base, d, earlier, v)
    {
      assert RowKnown(base, s, earlier, v);
    }
  }

  /** A transaction that was just applied spent what was unspent in `base`. */
  lemma SpentNow(base: map<OutPoint, FilledOutput>, rules: Rules, s: StateDb, tx: Transaction, height: nat)
    requires InputsIn(base, tx) && Agrees(base, s) && Coins.Unplaced(s.coins, Coins.FromTx(tx.txid))
    requires ApplyTx(rules, s, tx, height).Ok?
    ensures SpentBy(base, ApplyTx(rules, s, tx, height).value, tx)
  {
    ApplyTxCoins(rules, s, tx, height);
    var d := ApplyTx(rules, s, tx, height).value;
    forall v | 0 <= v < |tx.inputs|
      ensures RowKnown(base, d, tx, v)
    {
      assert RowKnown(s.coins.utxos, d, tx, v);
    }
  }

  /** Once spent, a transaction fills from the spent table as it filled from the unspent one. */
  lemma FillsAsBefore(base: map<OutPoint, FilledOutput>, c: Coins.Coins, s: StateDb, tx: Transaction)
    requires SpentBy(base, s, tx) && c.utxos == base
    ensures Coins.Fill(c, tx).Ok? && Coins.FillSpent(s.coins, tx) == Coins.Fill(c, tx)
  {
    forall v | 0 <= v < |tx.inputs|
      ensures tx.inputs[v] in base && Coins.SpentHere(s.coins.stxos, tx, v)
              && s.coins.stxos[tx.inputs[v]].output == base[tx.inputs[v]]
    {
      assert RowKnown(base, s, tx, v);
    }
    var a := Coins.FillFrom(base, tx.inputs, |tx.inputs|).value;
    var b := Coins.FillSpentFrom(s.coins.stxos, tx, 0).value;
    assert a == b;
  }

  /** Reverting a transaction undoes applying it. */
  lemma TxUndone(base: map<OutPoint, FilledOutput>, rules: Rules, s: StateDb, tx: Transaction, height: nat)
    requires Coins.Disjoint(s.coins) && Effects.PoolsSound(s.effects.pools)
    requires InputsIn(base, tx) && Agrees(base, s) && ReservationsMatch(base, s.effects)
    requires NewTx(s, tx.txid) && Effects.Registrable(s.effects, tx)
             && s.effects.assets.data.Keys == s.effects.assets.toSeq.Keys
    requires ApplyTx(rules, s, tx, height).Ok?
    ensures RevertTx(rules, ApplyTx(rules, s, tx, height).value, tx, height) == Ok(s)
  {
    ApplyTxParts(rules, s, tx, height);
    var d := ApplyTx(rules, s, tx, height).value;
    var f := Coins.Fill(s.coins, tx).value;
    var c := Coins.Spend(s.coins, tx, |tx.inputs|).value;
    ApplyTxCoins(rules, s, tx, height);
    FillsAsBefore(s.coins.utxos, s.coins, d, tx);
    EffectIsFresh(base, s, tx);
    Effects.EffectUndone(rules.keyedHash, s.effects, f, height);
    Coins.SpendIsExact(s.coins, tx, |tx.inputs|);
    assert Coins.Unplaced(c, Coins.FromTx(tx.txid));
    Coins.UncreateUndoes(c, Coins.FromTx(tx.txid), FilledOutputs(rules, f).value, |tx.outputs|);
    Coins.UnspendUndoes(s.coins, tx, |tx.inputs|);
  }

  // ---- the block ----

  predicate StepOk(rules: Rules, t: StateDb, tx: Transaction, height: nat, d: StateDb) {
    ApplyTx(rules, t, tx, height) == Ok(d)
  }

  /** The states between the transactions of a block. */
  ghost predicate IsTrace(rules: Rules, states: seq<StateDb>, txs: seq<Transaction>, height: nat) {
    && 0 < |states| <= |txs| + 1
    && forall i {:trigger StepAt(rules, states, txs, height, i)} | 0 <= i < |states| - 1 ::
       StepAt(rules, states, txs, height, i)
  }

  ghost predicate StepAt(rules: Rules, states: seq<StateDb>, txs: seq<Transaction>, height: nat, i: nat)
    requires i < |states| - 1 <= |txs|
  {
    StepOk(rules, states[i], txs[i], height, states[i + 1])
  }

  ghost predicate TxsOk(rules: Rules, s: StateDb, txs: seq<Transaction>, n: nat, height: nat, d: StateDb)
    requires n <= |txs|
  {
    ApplyTxs(rules, s, txs, n, height) == Ok(d)
  }

  /** The state before the last transaction. */
  lemma LastApplied(rules: Rules, s: StateDb, d: StateDb, txs: seq<Transaction>, n: nat, height: nat)
    returns (t: StateDb)
    requires 0 < n <= |txs| && TxsOk(rules, s, txs, n, height, d)
    ensures TxsOk(rules, s, txs, n - 1, height, t) && StepOk(rules, t, txs[n - 1], height, d)
  {
    t := ApplyTxs(rules, s, txs, n - 1, height).value;
  }

  ghost predicate LeadsTo(rules: Rules, states: seq<StateDb>, s: StateDb, d: StateDb, txs: seq<Transaction>, n: nat,
                          height: nat) {
    |states| == n + 1 && states[0] == s && states[n] == d && IsTrace(rules, states, txs, height)
  }

  lemma {:induction false} TraceOf(rules: Rules, s: StateDb, d: StateDb, txs: seq<Transaction>, n: nat, height: nat)
    returns (states: seq<StateDb>)
    requires n <= |txs| && TxsOk(rules, s, txs, n, height, d)
    ensures LeadsTo(rules, states, s, d, txs, n, height)
    decreases n
  {
    if n == 0 {
      states := [s];
    } else {
      var t := LastApplied(rules, s, d, txs, n, height);
      states := TraceOf(rules, s, t, txs, n - 1, height);
      LeadsFurther(rules, states, s, t, d, txs, n - 1, height);
      states := states + [d];
    }
  }

  lemma LeadsFurther(rules: Rules, states: seq<StateDb>, s: StateDb, t: StateDb, d: StateDb, txs: seq<Transaction>,
                     n: nat, height: nat)
    requires n < |txs| && LeadsTo(rules, states, s, t, txs, n, height) && StepOk(rules, t, txs[n], height, d)
    ensures LeadsTo(rules, states + [d], s, d, txs, n + 1, height)
  {
    TraceGrows(rules, states, d, txs, height);
  }

  lemma TraceGrows(rules: Rules, states: seq<StateDb>, d: StateDb, txs: seq<Transaction>, height: nat)
    requires IsTrace(rules, states, txs, height) && |states| <= |txs|
    requires StepOk(rules, states[|states| - 1], txs[|states| - 1], height, d)
    ensures IsTrace(rules, states + [d], txs, height)
  {
    var more := states + [d];
    forall i | 0 <= i < |more| - 1
      ensures StepAt(rules, more, txs, height, i)
    {
      assert i < |states| - 1 ==> StepAt(rules, states, txs, height, i);
    }
  }

  /** `e` comes from `m`, where `kept` holds, by transaction `i`. */
  ghost predicate Steps(rules: Rules, kept: (StateDb, nat) -> bool, txs: seq<Transaction>, height: nat, m: StateDb,
                        e: StateDb, i: nat) {
    i < |txs| && kept(m, i) && StepOk(rules, m, txs[i], height, e)
  }

  ghost predicate KeptBy(rules: Rules, kept: (StateDb, nat) -> bool, txs: seq<Transaction>, height: nat, m: StateDb,
                         e: StateDb, i: nat) {
    Steps(rules, kept, txs, height, m, e, i) ==> kept(e, i + 1)
  }

  lemma {:induction false} TraceInduction(rules: Rules, kept: (StateDb, nat) -> bool, states: seq<StateDb>,
                                          txs: seq<Transaction>, n: nat, height: nat)
    requires n < |states| && IsTrace(rules, states, txs, height) && kept(states[0], 0)
    requires forall m: StateDb, e: StateDb, i: nat {:trigger KeptBy(rules, kept, txs, height, m, e, i)} ::
               KeptBy(rules, kept, txs, height, m, e, i)
    ensures kept(states[n], n)
    decreases n
  {
    if n > 0 {
      TraceInduction(rules, kept, states, txs, n - 1, height);
      assert StepAt(rules, states, txs, height, n - 1);
      assert KeptBy(rules, kept, txs, height, states[n - 1], states[n], n - 1);
    }
  }

  /** What holds at first and is kept by each transaction holds after all of them. */
  lemma TxsInduction(rules: Rules, kept: (StateDb, nat) -> bool, s: StateDb, d: StateDb, txs: seq<Transaction>,
                     height: nat)
    requires ApplyTxs(rules, s, txs, |txs|, height) == Ok(d) && kept(s, 0)
    requires forall m: StateDb, e: StateDb, i: nat {:trigger KeptBy(rules, kept, txs, height, m, e, i)} ::
               KeptBy(rules, kept, txs, height, m, e, i)
    ensures kept(d, |txs|)
  {
    var states := TraceOf(rules, s, d, txs, |txs|, height);
    TraceInduction(rules, kept, states, txs, |txs|, height);
  }

  /** What was spent stays recorded, and what was spent now is recorded as well. */
  lemma SpentAfter(base: map<OutPoint, FilledOutput>, rules: Rules, t: StateDb, d: StateDb, txs: seq<Transaction>,
                   n: nat, height: nat)
    requires n < |txs| && SpentFrom(base, t, txs, n) && StepOk(rules, t, txs[n], height, d)
    requires Coins.Disjoint(t.coins) && Coins.Unplaced(t.coins, Coins.FromTx(txs[n].txid)) && Agrees(base, t)
             && InputsIn(base, txs[n])
    ensures SpentFrom(base, d, txs, n + 1)
  {
    SpentNow(base, rules, t, txs[n], height);
    forall i | 0 <= i < n + 1
      ensures SpentBy(base, d, txs[i])
    {
      if i < n {
        SpentKept(base, rules, t, txs[i], txs[n], height);
      }
    }
  }

  /** One more transaction of the block. */
  lemma TxReady(base: Base, rules: Rules, t: StateDb, d: StateDb, txs: seq<Transaction>, n: nat, height: nat)
    requires n < |txs| && Given(base, txs) && Ready(base, t, txs, n) && SpentFrom(base.utxos, t, txs, n)
    requires StepOk(rules, t, txs[n], height, d)
    ensures Ready(base, d, txs, n + 1) && SpentFrom(base.utxos, d, txs, n + 1)
  {
    assert NewTx(t, txs[n].txid) && GivenTx(base.utxos, txs[n]);
    ReadyStep(base, rules, t, txs, n, height);
    SpentAfter(base.utxos, rules, t, d, txs, n, height);
  }

  /** The transaction of a block that is due next is undone by its reverse. */
  lemma NextTxUndone(base: Base, rules: Rules, t: StateDb, d: StateDb, txs: seq<Transaction>, n: nat, height: nat)
    requires n < |txs| && Given(base, txs) && Ready(base, t, txs, n) && StepOk(rules, t, txs[n], height, d)
    ensures RevertTx(rules, d, txs[n], height) == Ok(t)
  {
    assert NewTx(t, txs[n].txid) && GivenTx(base.utxos, txs[n]);
    NextRegistrable(base, t, txs, n);
    TxUndone(base.utxos, rules, t, txs[n], height);
  }

  lemma FirstRevert(rules: Rules, d: StateDb, t: StateDb, s: StateDb, txs: seq<Transaction>, n: nat, height: nat)
    requires 0 < n <= |txs| && RevertTx(rules, d, txs[n - 1], height) == Ok(t)
             && RevertTxs(rules, t, txs, n - 1, height) == Ok(s)
    ensures RevertTxs(rules, d, txs, n, height) == Ok(s)
  {
  }

  /**
   After some transactions of a block: ready for the next, what was spent is
   recorded, and reverting leads back to `s`.
   */
  ghost predicate Undoable(base: Base, rules: Rules, s: StateDb, d: StateDb, txs: seq<Transaction>, n: nat,
                           height: nat) {
    && n <= |txs| && Ready(base, d, txs, n) && SpentFrom(base.utxos, d, txs, n)
    && RevertTxs(rules, d, txs, n, height) == Ok(s)
  }

  lemma OneMoreUndoable(base: Base, rules: Rules, s: StateDb, m: StateDb, e: StateDb, txs: seq<Transaction>, n: nat,
                        height: nat)
    requires n < |txs| && Given(base, txs) && Undoable(base, rules, s, m, txs, n, height)
             && StepOk(rules, m, txs[n], height, e)
    ensures Undoable(base, rules, s, e, txs, n + 1, height)
  {
    TxReady(base, rules, m, e, txs, n, height);
    NextTxUndone(base, rules, m, e, txs, n, height);
    FirstRevert(rules, e, m, s, txs, n + 1, height);
  }

  lemma OneMoreIfUndoable(base: Base, rules: Rules, s: StateDb, m: StateDb, e: StateDb, txs: seq<Transaction>, n: nat,
                          height: nat)
    requires Given(base, txs)
    ensures n < |txs| && Undoable(base, rules, s, m, txs, n, height) && StepOk(rules, m, txs[n], height, e) ==>
              Undoable(base, rules, s, e, txs, n + 1, height)
  {
    if n < |txs| && Undoable(base, rules, s, m, txs, n, height) && StepOk(rules, m, txs[n], height, e) {
      OneMoreUndoable(base, rules, s, m, e, txs, n, height);
    }
  }

  ghost function Undoing(base: Base, rules: Rules, s: StateDb, txs: seq<Transaction>, height: nat)
    : (StateDb, nat) -> bool
  {
    (e: StateDb, n: nat) => Undoable(base, rules, s, e, txs, n, height)
  }

  lemma UndoingKept(base: Base, rules: Rules, s: StateDb, m: StateDb, e: StateDb, txs: seq<Transaction>, i: nat,
                    height: nat)
    requires Given(base, txs)
    ensures KeptBy(rules, Undoing(base, rules, s, txs, height), txs, height, m, e, i)
  {
    OneMoreIfUndoable(base, rules, s, m, e, txs, i, height);
  }

  lemma TxsUndone(base: Base, rules: Rules, s: StateDb, d: StateDb, txs: seq<Transaction>, height: nat)
    requires ApplyTxs(rules, s, txs, |txs|, height) == Ok(d) && Given(base, txs) && Ready(base, s, txs, 0)
    ensures Undoable(base, rules, s, d, txs, |txs|, height)
  {
    var kept := Undoing(base, rules, s, txs, height);
    forall m: StateDb, e: StateDb, i: nat {:trigger KeptBy(rules, kept, txs, height, m, e, i)}
      ensures KeptBy(rules, kept, txs, height, m, e, i)
    {
      UndoingKept(base, rules, s, m, e, txs, i, height);
    }
    TxsInduction(rules, kept, s, d, txs, height);
  }

  lemma {:induction false} AllFillAsBefore(c: Coins.Coins, s: StateDb, txs: seq<Transaction>, n: nat)
    requires n <= |txs| && SpentFrom(c.utxos, s, txs, n)
    ensures FillAll(c, txs, n).Ok? && FillAllSpent(s.coins, txs, n) == FillAll(c, txs, n)
  {
    if n > 0 {
      AllFillAsBefore(c, s, txs, n - 1);
      FillsAsBefore(c.utxos, c, s, txs[n - 1]);
    }
  }

  /** `filled` is what the transactions spent, as the spent table tells. */
  ghost predicate SpentAs(c: Coins.Coins, txs: seq<Transaction>, filled: seq<FilledTransaction>) {
    && |filled| == |txs|
    && forall i | 0 <= i < |txs| :: Coins.FillSpent(c, txs[i]) == Ok(filled[i])
  }

  lemma {:induction false} FillAllSpentIs(c: Coins.Coins, txs: seq<Transaction>, n: nat)
    requires n <= |txs| && FillAllSpent(c, txs, n).Ok?
    ensures SpentAs(c, txs[..n], FillAllSpent(c, txs, n).value)
  {
    if n > 0 {
      FillAllSpentIs(c, txs, n - 1);
      assert forall i | 0 <= i < n - 1 :: txs[..n][i] == txs[..n - 1][i];
    }
  }

  /**
   Only the tip is disconnected, by a block whose inputs all went to its own
   transactions and whose root agrees with what they spent; the state steps back
   to the parent at one height less.
   */
  lemma DisconnectChecks(rules: Rules, s: StateDb, h: Header, b: Body)
    requires Disconnect(rules, s, h, b).Ok?
    ensures s.tip == Some(h.hash) && s.height.Some?
    ensures forall i, v | 0 <= i < |b.transactions| && 0 <= v < |b.transactions[i].inputs| ::
              Coins.SpentHere(s.coins.stxos, b.transactions[i], v)
    ensures exists filled :: SpentAs(s.coins, b.transactions, filled)
                             && rules.merkleRoot(b.coinbase, filled) == Some(h.merkleRoot)
    ensures var d, height := Disconnect(rules, s, h, b).value, s.height.value;
            && d.tip == h.prevSide && (h.prevSide.None? <==> height == 0)
            && d.height == if height == 0 then None else Some(height - 1)
  {
    var txs := b.transactions;
    FillAllSpentIs(s.coins, txs, |txs|);
    assert txs[..|txs|] == txs;
    var filled := FillAllSpent(s.coins, txs, |txs|).value;
    assert SpentAs(s.coins, txs, filled);
    forall i, v | 0 <= i < |txs| && 0 <= v < |txs[i].inputs|
      ensures Coins.SpentHere(s.coins.stxos, txs[i], v)
    {
      assert Coins.FillSpent(s.coins, txs[i]).Ok?;
    }
  }

  function Before(s: StateDb): Base {
    Base(s.coins.utxos, s.effects.assets)
  }

  /** New coinbase outputs disturb nothing. */
  lemma CoinbaseHarmless(s: StateDb, h: Header, outputs: seq<FilledOutput>)
    requires Coins.Disjoint(s.coins) && Coins.Unplaced(s.coins, Coins.FromCoinbase(h.coinbaseTxid))
    ensures Coins.Disjoint(WithCoinbase(s, h, outputs).coins) && Agrees(s.coins.utxos, WithCoinbase(s, h, outputs))
    ensures forall t: Txid | NewTx(s, t) :: NewTx(WithCoinbase(s, h, outputs), t)
  {
    var origin := Coins.FromCoinbase(h.coinbaseTxid);
    var start := WithCoinbase(s, h, outputs);
    Coins.CreateIsExact(s.coins, origin, outputs, |outputs|);
    assert forall o | o in Coins.Places(origin, |outputs|) :: o.Coinbase? && o !in s.coins.utxos && o !in s.coins.stxos;
    forall t: Txid | NewTx(s, t)
      ensures NewTx(start, t)
    {
      assert forall v: nat :: Coins.Place(Coins.FromTx(t), v) == Regular(t, v);
    }
  }

  lemma FilledTxGiven(s: StateDb, tx: Transaction)
    requires NewTx(s, tx.txid) && NoReservationOf(s.coins.utxos, tx.txid) && Coins.Fill(s.coins, tx).Ok?
    ensures GivenTx(s.coins.utxos, tx)
  {
    assert forall v: nat :: Regular(tx.txid, v) == Coins.Place(Coins.FromTx(tx.txid), v);
  }

  /** The coinbase leaves the block ready. */
  lemma StartReady(rules: Rules, s: StateDb, h: Header, b: Body)
    requires Valid(s) && BlockFresh(s, h, b) && RegistersNew(s, b) && Connect(rules, s, h, b).Ok?
    ensures Given(Before(s), b.transactions)
    ensures Ready(Before(s), WithCoinbase(s, h, CoinbaseOutputs(b.coinbase, |b.coinbase|).value), b.transactions, 0)
  {
    ConnectParts(rules, s, h, b);
    StartReadyFrom(s, h, b, CoinbaseOutputs(b.coinbase, |b.coinbase|).value);
  }

  lemma StartReadyFrom(s: StateDb, h: Header, b: Body, outputs: seq<FilledOutput>)
    requires Valid(s) && BlockFresh(s, h, b) && RegistersNew(s, b)
             && FillAll(s.coins, b.transactions, |b.transactions|).Ok?
    ensures Given(Before(s), b.transactions) && Ready(Before(s), WithCoinbase(s, h, outputs), b.transactions, 0)
  {
    var txs := b.transactions;
    CoinbaseHarmless(s, h, outputs);
    BitAssets.NothingGrown(s.effects.assets);
    forall i | 0 <= i < |txs|
      ensures NewTx(WithCoinbase(s, h, outputs), txs[i].txid) && GivenTx(s.coins.utxos, txs[i])
    {
      assert NewTx(s, txs[i].txid) && Coins.Fill(s.coins, txs[i]).Ok?;
      FilledTxGiven(s, txs[i]);
    }
  }

  /** What a successful connect consists of. */
  lemma ConnectParts(rules: Rules, s: StateDb, h: Header, b: Body)
    requires Connect(rules, s, h, b).Ok?
    ensures s.tip == h.prevSide && FillAll(s.coins, b.transactions, |b.transactions|).Ok?
    ensures CheckRoot(rules, h, b, FillAll(s.coins, b.transactions, |b.transactions|).value).None?
    ensures CoinbaseOutputs(b.coinbase, |b.coinbase|).Some?
    ensures var start := WithCoinbase(s, h, CoinbaseOutputs(b.coinbase, |b.coinbase|).value);
            var t := ApplyTxs(rules, start, b.transactions, |b.transactions|, NextHeight(s));
            t.Ok? && Connect(rules, s, h, b).value == t.value.(tip := Some(h.hash), height := Some(NextHeight(s)))
  {
  }

  /** What it takes to disconnect a block. */
  lemma DisconnectParts(rules: Rules, s: StateDb, h: Header, b: Body, filled: seq<FilledTransaction>, t: StateDb,
                        coins: Coins.Coins)
    requires s.tip == Some(h.hash) && s.height.Some?
    requires FillAllSpent(s.coins, b.transactions, |b.transactions|) == Ok(filled)
             && CheckRoot(rules, h, b, filled).None?
    requires RevertTxs(rules, s, b.transactions, |b.transactions|, s.height.value) == Ok(t)
    requires Coins.Uncreate(t.coins, Coins.FromCoinbase(h.coinbaseTxid), |b.coinbase|) == Ok(coins)
    ensures Disconnect(rules, s, h, b) == StepBack(t.(coins := coins), h.prevSide, s.height.value)
  {
  }

  /**
   After connecting, every transaction fills again as it did, and reverting them
   all leaves only the coinbase to undo.
   */
  lemma TxsOfBlockUndone(rules: Rules, s: StateDb, h: Header, b: Body)
    requires Valid(s) && BlockFresh(s, h, b) && RegistersNew(s, b) && Connect(rules, s, h, b).Ok?
    ensures var end := Connect(rules, s, h, b).value;
            && FillAllSpent(end.coins, b.transactions, |b.transactions|) ==
               FillAll(s.coins, b.transactions, |b.transactions|)
            && RevertTxs(rules, end, b.transactions, |b.transactions|, NextHeight(s)) ==
               Ok(WithCoinbase(s, h, CoinbaseOutputs(b.coinbase, |b.coinbase|).value)
                  .(tip := end.tip, height := end.height))
            && Coins.Disjoint(end.coins) && Effects.PoolsSound(end.effects.pools)
            && BitAssets.Bijection(end.effects.assets)
  {
    var txs := b.transactions;
    var start := WithCoinbase(s, h, CoinbaseOutputs(b.coinbase, |b.coinbase|).value);
    ConnectParts(rules, s, h, b);
    StartReady(rules, s, h, b);
    var t := ApplyTxs(rules, start, txs, |txs|, NextHeight(s)).value;
    TxsUndone(Before(s), rules, start, t, txs, NextHeight(s));
    var end := Connect(rules, s, h, b).value;
    assert SpentFrom(s.coins.utxos, end, txs, |txs|) by {
      forall i | 0 <= i < |txs|
        ensures SpentBy(s.coins.utxos, end, txs[i])
      {
        assert SpentBy(s.coins.utxos, t, txs[i]);
        assert forall v | 0 <= v < |txs[i].inputs| ::
          RowKnown(s.coins.utxos, t, txs[i], v) == RowKnown(s.coins.utxos, end, txs[i], v);
      }
    }
    AllFillAsBefore(s.coins, end, txs, |txs|);
    TipUnread(rules, t, end, txs, |txs|, NextHeight(s));
  }

  /** With the transactions reverted, only the coinbase, the tip and the height remain to be restored. */
  lemma StartUndone(rules: Rules, s: StateDb, end: StateDb, h: Header, b: Body, outputs: seq<FilledOutput>,
                    filled: seq<FilledTransaction>)
    requires Valid(s) && Coins.Unplaced(s.coins, Coins.FromCoinbase(h.coinbaseTxid)) && |outputs| == |b.coinbase|
    requires s.tip == h.prevSide && end.tip == Some(h.hash) && end.height == Some(NextHeight(s))
    requires FillAllSpent(end.coins, b.transactions, |b.transactions|) == Ok(filled)
             && CheckRoot(rules, h, b, filled).None?
    requires RevertTxs(rules, end, b.transactions, |b.transactions|, NextHeight(s)) ==
             Ok(WithCoinbase(s, h, outputs).(tip := end.tip, height := end.height))
    ensures Disconnect(rules, end, h, b) == Ok(s)
  {
    Coins.UncreateUndoes(s.coins, Coins.FromCoinbase(h.coinbaseTxid), outputs, |outputs|);
    DisconnectParts(rules, end, h, b, filled, WithCoinbase(s, h, outputs).(tip := end.tip, height := end.height),
                    s.coins);
  }

  /** Disconnecting a block restores exactly the state that it was connected to. */
  lemma DisconnectUndoesConnect(rules: Rules, s: StateDb, h: Header, b: Body)
    requires Valid(s) && BlockFresh(s, h, b) && RegistersNew(s, b) && Connect(rules, s, h, b).Ok?
    ensures Disconnect(rules, Connect(rules, s, h, b).value, h, b) == Ok(s)
    ensures Valid(Connect(rules, s, h, b).value)
  {
    ConnectParts(rules, s, h, b);
    TxsOfBlockUndone(rules, s, h, b);
    StartUndone(rules, s, Connect(rules, s, h, b).value, h, b, CoinbaseOutputs(b.coinbase, |b.coinbase|).value,
                FillAll(s.coins, b.transactions, |b.transactions|).value);
  }

  // ---- registrations that do not fit ----

  lemma TxGrows(rules: Rules, t: BitAssets.Tables, r: BitAssets.Registrations, s: StateDb, d: StateDb, tx: Transaction,
                height: nat)
    requires BitAssets.Grown(t, s.effects.assets, r) && StepOk(rules, s, tx, height, d)
    ensures BitAssets.Grown(t, d.effects.assets, r.Plus(Effects.RegisteredBy(tx)))
  {
    ApplyTxParts(rules, s, tx, height);
    Effects.NumbersGrow(rules.keyedHash, t, r, s.effects, Coins.Fill(s.coins, tx).value, height);
  }

  /** The number tables after the first `n` transactions. */
  ghost predicate GrownBy(t: BitAssets.Tables, r: BitAssets.Registrations, e: StateDb, txs: seq<Transaction>, n: nat) {
    n <= |txs| && BitAssets.Grown(t, e.effects.assets, r.Plus(Registered(txs, n)))
  }

  lemma OneMoreGrown(rules: Rules, t: BitAssets.Tables, r: BitAssets.Registrations, m: StateDb, e: StateDb,
                     txs: seq<Transaction>, n: nat, height: nat)
    requires n < |txs| && GrownBy(t, r, m, txs, n) && StepOk(rules, m, txs[n], height, e)
    ensures GrownBy(t, r, e, txs, n + 1)
  {
    TxGrows(rules, t, r.Plus(Registered(txs, n)), m, e, txs[n], height);
    r.PlusAssociates(Registered(txs, n), Effects.RegisteredBy(txs[n]));
  }

  lemma NoneGrown(t: BitAssets.Tables, r: BitAssets.Registrations, s: StateDb, txs: seq<Transaction>)
    requires BitAssets.Grown(t, s.effects.assets, r)
    ensures GrownBy(t, r, s, txs, 0)
  {
    assert r.Plus(Registered(txs, 0)) == r;
  }

  lemma TxsGrow(rules: Rules, t: BitAssets.Tables, r: BitAssets.Registrations, s: StateDb, d: StateDb,
                txs: seq<Transaction>, height: nat)
    requires ApplyTxs(rules, s, txs, |txs|, height) == Ok(d) && BitAssets.Grown(t, s.effects.assets, r)
    ensures GrownBy(t, r, d, txs, |txs|)
  {
    var kept := (e: StateDb, n: nat) => GrownBy(t, r, e, txs, n);
    NoneGrown(t, r, s, txs);
    forall m: StateDb, e: StateDb, i: nat {:trigger KeptBy(rules, kept, txs, height, m, e, i)}
      ensures KeptBy(rules, kept, txs, height, m, e, i)
    {
      if Steps(rules, kept, txs, height, m, e, i) {
        OneMoreGrown(rules, t, r, m, e, txs, i, height);
      }
    }
    TxsInduction(rules, kept, s, d, txs, height);
  }

  /** A connected block grows the number tables by what it registers, as far as that is new. */
  lemma ConnectGrows(rules: Rules, t: BitAssets.Tables, r: BitAssets.Registrations, s: StateDb, h: Header, b: Body)
    requires BitAssets.Grown(t, s.effects.assets, r) && Connect(rules, s, h, b).Ok?
    ensures BitAssets.Grown(t, Connect(rules, s, h, b).value.effects.assets, r.Plus(BlockRegisters(b)))
  {
    var txs := b.transactions;
    ConnectParts(rules, s, h, b);
    var start := WithCoinbase(s, h, CoinbaseOutputs(b.coinbase, |b.coinbase|).value);
    var d := ApplyTxs(rules, start, txs, |txs|, NextHeight(s)).value;
    TxsGrow(rules, t, r, start, d, txs, NextHeight(s));
    assert GrownBy(t, r, d, txs, |txs|);
  }

  /** `s` has as many rows in its number tables as `d`, less the registrations in between. */
  ghost predicate Fewer(s: StateDb, d: StateDb, registered: nat) {
    && |d.effects.assets.toSeq| == |s.effects.assets.toSeq| + registered
    && |d.effects.assets.toAsset| == |s.effects.assets.toAsset| + registered
  }

  lemma TxShrinks(rules: Rules, d: StateDb, tx: Transaction, height: nat)
    requires RevertTx(rules, d, tx, height).Ok?
    ensures Fewer(RevertTx(rules, d, tx, height).value, d, Effects.RegisteredBy(tx).Count())
  {
    Effects.NumbersShrink(rules.keyedHash, d.effects, Coins.FillSpent(d.coins, tx).value, height);
  }

  lemma {:induction false} TxsShrink(rules: Rules, d: StateDb, s: StateDb, txs: seq<Transaction>, n: nat, height: nat)
    requires n <= |txs| && RevertTxs(rules, d, txs, n, height) == Ok(s)
    ensures Fewer(s, d, Registered(txs, n).Count())
    decreases n
  {
    if n > 0 {
      var t := FirstRevertOk(rules, d, s, txs, n, height);
      TxsShrink(rules, t, s, txs, n - 1, height);
      Registered(txs, n - 1).PlusCount(Effects.RegisteredBy(txs[n - 1]));
    }
  }

  lemma FirstRevertOk(rules: Rules, d: StateDb, s: StateDb, txs: seq<Transaction>, n: nat, height: nat)
    returns (t: StateDb)
    requires 0 < n <= |txs| && RevertTxs(rules, d, txs, n, height) == Ok(s)
    ensures RevertTxs(rules, t, txs, n - 1, height) == Ok(s) && Fewer(t, d, Effects.RegisteredBy(txs[n - 1]).Count())
  {
    t := RevertTx(rules, d, txs[n - 1], height).value;
    TxShrinks(rules, d, txs[n - 1], height);
  }

  /** A block that is disconnected to the state it was connected to registered new assets at free numbers. */
  lemma RestoredOnlyIfNew(rules: Rules, s: StateDb, end: StateDb, h: Header, b: Body)
    requires Valid(s) && Connect(rules, s, h, b) == Ok(end) && Disconnect(rules, end, h, b) == Ok(s)
    ensures RegistersNew(s, b)
  {
    BlockGrows(rules, s, end, h, b);
    DisconnectShrinks(rules, end, s, h, b);
  }

  lemma BlockGrows(rules: Rules, s: StateDb, end: StateDb, h: Header, b: Body)
    requires Valid(s) && Connect(rules, s, h, b) == Ok(end)
    ensures BitAssets.Grown(s.effects.assets, end.effects.assets, BlockRegisters(b))
  {
    BitAssets.NothingGrown(s.effects.assets);
    ConnectGrows(rules, s.effects.assets, BitAssets.Nothing, s, h, b);
    BlockRegisters(b).NothingPlus();
  }

  lemma DisconnectShrinks(rules: Rules, end: StateDb, s: StateDb, h: Header, b: Body)
    requires Disconnect(rules, end, h, b) == Ok(s)
    ensures Fewer(s, end, BlockRegisters(b).Count())
  {
    var t := RevertTxs(rules, end, b.transactions, |b.transactions|, end.height.value).value;
    TxsShrink(rules, end, t, b.transactions, |b.transactions|, end.height.value);
  }

  /**
   Disconnecting a block with new txids restores the state that it was connected
   to exactly when the block registered distinct new assets, each at a count at
   which the next number is free.
   */
  lemma DisconnectRestoresExactly(rules: Rules, s: StateDb, h: Header, b: Body)
    requires Valid(s) && BlockFresh(s, h, b) && Connect(rules, s, h, b).Ok?
    ensures Disconnect(rules, Connect(rules, s, h, b).value, h, b) == Ok(s) <==> RegistersNew(s, b)
  {
    if RegistersNew(s, b) {
      DisconnectUndoesConnect(rules, s, h, b);
    } else if Disconnect(rules, Connect(rules, s, h, b).value, h, b) == Ok(s) {
      RestoredOnlyIfNew(rules, s, Connect(rules, s, h, b).value, h, b);
    }
  }

  /** In particular, with 257 assets no block that registers one can be undone. */
  lemma NotRestoredAt257(rules: Rules, s: StateDb, h: Header, b: Body)
    requires Valid(s) && BlockFresh(s, h, b) && Connect(rules, s, h, b).Ok?
    requires |s.effects.assets.toSeq| == 257 && BlockRegisters(b).Then?
    ensures Disconnect(rules, Connect(rules, s, h, b).value, h, b) != Ok(s)
  {
    var r := BlockRegisters(b);
    DisconnectRestoresExactly(rules, s, h, b);
    BitAssets.RegistrationsFitMeans(s.effects.assets, r);
    KeyOrder.CountsFitInParts(257, 1, r.before.Count());
    SmallCount();
  }

  lemma SmallCount()
    ensures !KeyOrder.CountsFit(257, 1)
  {
    BitAssets.SmallCountFits(257);
  }

  /** Reverting transactions neither reads nor changes tip and height. */
  lemma {:induction false} TipUnread(rules: Rules, s: StateDb, d: StateDb, txs: seq<Transaction>, n: nat, height: nat)
    requires n <= |txs| && d.coins == s.coins && d.effects == s.effects && RevertTxs(rules, s, txs, n, height).Ok?
    ensures RevertTxs(rules, d, txs, n, height) ==
            Ok(RevertTxs(rules, s, txs, n, height).value.(tip := d.tip, height := d.height))
    decreases n
  {
    if n > 0 {
      TipUnread(rules, RevertTx(rules, s, txs[n - 1], height).value, RevertTx(rules, d, txs[n - 1], height).value, txs,
                n - 1, height);
    }
  }
}
