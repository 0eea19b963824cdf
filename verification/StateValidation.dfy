/**
 When a block is valid, in terms of plain sums, positions and unspent outputs,
 and what a validated block is then worth.
 */
module StateValidation {
  import opened Wrappers
  import opened Arith
  import opened ChainTypes
  import opened Transactions
  import opened StateDb
  import opened OutPointOrder
  import opened StateRoundTrip
  import opened StateOutputs
  import Batching = StateBatch

  // ---- sums ----

  function Sum(s: seq<nat>): nat {
    if s == [] then 0 else s[0] + Sum(s[1..])
  }

  lemma {:induction false} SumSnoc(s: seq<nat>, x: nat)
    ensures Sum(s + [x]) == Sum(s) + x
  {
    if s == [] {
      assert s + [x] == [x] && [x][1..] == [];
    } else {
      assert (s + [x])[1..] == s[1..] + [x];
      SumSnoc(s[1..], x);
    }
  }

  /** Bitcoin that a coinbase output pays out; all other kinds of output hold none. */
  ghost function Payout(o: Output): nat {
    if o.content.BitcoinOut? || o.content.WithdrawalOut? then o.content.value else 0
  }

  ghost function Payouts(outputs: seq<Output>): (r: seq<nat>)
    ensures |r| == |outputs| && forall v | 0 <= v < |r| :: r[v] == Payout(outputs[v])
  {
    seq(|outputs|, v requires 0 <= v < |outputs| => Payout(outputs[v]))
  }

  /** The fee of each transaction, where there is one. */
  ghost function Fees(rules: Rules, s: StateDb, filled: seq<FilledTransaction>): (r: seq<nat>)
    ensures |r| == |filled|
    ensures forall i | 0 <= i < |r| :: rules.fee(s, filled[i]).Some? ==> rules.fee(s, filled[i]) == Some(r[i])
  {
    seq(|filled|, i requires 0 <= i < |filled| =>
      match rules.fee(s, filled[i]) case None => 0 case Some(fee) => fee)
  }

  ghost predicate AllHaveFees(rules: Rules, s: StateDb, filled: seq<FilledTransaction>, n: nat)
    requires n <= |filled|
  {
    forall i | 0 <= i < n :: rules.fee(s, filled[i]).Some?
  }

  lemma {:induction false} CoinbaseSum(outputs: seq<Output>, n: nat)
    requires n <= |outputs|
    ensures Batching.CoinbaseValue(outputs, n) ==
            if Sum(Payouts(outputs)[..n]) < U64_LIMIT then Ok(Sum(Payouts(outputs)[..n])) else Err(AmountOverflow)
  {
    if n > 0 {
      var p := Payouts(outputs);
      CoinbaseSum(outputs, n - 1);
      assert p[..n] == p[..n - 1] + [p[n - 1]];
      SumSnoc(p[..n - 1], p[n - 1]);
    }
  }

  lemma {:induction false} FeeSum(rules: Rules, s: StateDb, filled: seq<FilledTransaction>, n: nat)
    requires n <= |filled|
    ensures var fees := Fees(rules, s, filled)[..n];
            && (Batching.TotalFees(rules, s, filled, n).Ok? <==>
                AllHaveFees(rules, s, filled, n) && Sum(fees) < U64_LIMIT)
            && (Batching.TotalFees(rules, s, filled, n).Ok? ==>
                Batching.TotalFees(rules, s, filled, n) == Ok(Sum(fees)))
  {
    if n > 0 {
      var fees := Fees(rules, s, filled);
      FeeSum(rules, s, filled, n - 1);
      assert fees[..n] == fees[..n - 1] + [fees[n - 1]];
      SumSnoc(fees[..n - 1], fees[n - 1]);
    }
  }

  // ---- double spends ----

  /** Input `u` of transaction `i` is input `v` of transaction `j`. */
  ghost predicate SameInput(txs: seq<Transaction>, i: nat, u: nat, j: nat, v: nat) {
    i < |txs| && j < |txs| && u < |txs[i].inputs| && v < |txs[j].inputs| && txs[i].inputs[u] == txs[j].inputs[v]
  }

  /** No outpoint is the input of two transactions, or twice of one. */
  ghost predicate SpendsOnce(txs: seq<Transaction>) {
    forall i: nat, u: nat, j: nat, v: nat | SameInput(txs, i, u, j, v) :: i == j && u == v
  }

  /** Position in the block of the first input of transaction `i`. */
  ghost function Offset(txs: seq<Transaction>, i: nat): nat
    requires i <= |txs|
  {
    if i == 0 then 0 else Offset(txs, i - 1) + |txs[i - 1].inputs|
  }

  lemma {:induction false} OffsetMono(txs: seq<Transaction>, i: nat, j: nat)
    requires i < j <= |txs|
    ensures Offset(txs, i) + |txs[i].inputs| <= Offset(txs, j)
    decreases j
  {
    if i < j - 1 {
      OffsetMono(txs, i, j - 1);
    }
  }

  /** The transaction and the place in it of an input position. */
  lemma {:induction false} Locate(txs: seq<Transaction>, n: nat, k: nat) returns (i: nat, u: nat)
    requires n <= |txs| && k < Offset(txs, n)
    ensures i < n && u < |txs[i].inputs| && k == Offset(txs, i) + u
  {
    if k >= Offset(txs, n - 1) {
      i, u := n - 1, k - Offset(txs, n - 1);
    } else {
      i, u := Locate(txs, n - 1, k);
    }
  }

  lemma {:induction false} InputsInOrder(txs: seq<Transaction>, n: nat, i: nat, u: nat)
    requires i < n <= |txs| && u < |txs[i].inputs|
    ensures |Batching.AllInputs(txs, n)| == Offset(txs, n) && Offset(txs, i) + u < Offset(txs, n)
    ensures Batching.AllInputs(txs, n)[Offset(txs, i) + u] == txs[i].inputs[u]
  {
    InputsCounted(txs, n);
    InputsCounted(txs, n - 1);
    OffsetMono(txs, i, n);
    if i < n - 1 {
      InputsInOrder(txs, n - 1, i, u);
    }
  }

  lemma {:induction false} InputsCounted(txs: seq<Transaction>, n: nat)
    requires n <= |txs|
    ensures |Batching.AllInputs(txs, n)| == Offset(txs, n)
  {
    if n > 0 {
      InputsCounted(txs, n - 1);
    }
  }

  lemma DistinctInputs(txs: seq<Transaction>, i: nat, u: nat, j: nat, v: nat)
    requires Distinct(Batching.AllInputs(txs, |txs|)) && SameInput(txs, i, u, j, v)
    ensures i == j && u == v
  {
    InputsInOrder(txs, |txs|, i, u);
    InputsInOrder(txs, |txs|, j, v);
    var all := Batching.AllInputs(txs, |txs|);
    var k, l := Offset(txs, i) + u, Offset(txs, j) + v;
    assert all[k] == all[l] && k == l;
    SamePosition(txs, i, u, j, v);
  }

  lemma DistinctPositions(txs: seq<Transaction>, k: nat, l: nat)
    requires SpendsOnce(txs) && k < l < Offset(txs, |txs|)
    ensures |Batching.AllInputs(txs, |txs|)| == Offset(txs, |txs|)
    ensures Batching.AllInputs(txs, |txs|)[k] != Batching.AllInputs(txs, |txs|)[l]
  {
    var i, u := Locate(txs, |txs|, k);
    var j, v := Locate(txs, |txs|, l);
    InputsInOrder(txs, |txs|, i, u);
    InputsInOrder(txs, |txs|, j, v);
    assert !SameInput(txs, i, u, j, v);
  }

  lemma DistinctIsSpendsOnce(txs: seq<Transaction>)
    ensures Distinct(Batching.AllInputs(txs, |txs|)) <==> SpendsOnce(txs)
  {
    var all := Batching.AllInputs(txs, |txs|);
    if Distinct(all) {
      forall i: nat, u: nat, j: nat, v: nat | SameInput(txs, i, u, j, v)
        ensures i == j && u == v
      {
        DistinctInputs(txs, i, u, j, v);
      }
    }
    if SpendsOnce(txs) {
      InputsCounted(txs, |txs|);
      forall k, l | 0 <= k < l < |all|
        ensures all[k] != all[l]
      {
        DistinctPositions(txs, k, l);
      }
    }
  }

  lemma SamePosition(txs: seq<Transaction>, i: nat, u: nat, j: nat, v: nat)
    requires i < |txs| && j < |txs| && u < |txs[i].inputs| && v < |txs[j].inputs|
    ensures Offset(txs, i) + u == Offset(txs, j) + v ==> i == j && u == v
  {
    if i < j {
      OffsetMono(txs, i, j);
    } else if j < i {
      OffsetMono(txs, j, i);
    }
  }

  // ---- owners ----

  /** The authorization at the position of an input, if there is one, is by the owner of the output it spends. */
  ghost predicate OwnerSigned(utxos: map<OutPoint, FilledOutput>, b: Body, i: nat, u: nat)
    requires i < |b.transactions| && u < |b.transactions[i].inputs|
  {
    var k, o := Offset(b.transactions, i) + u, b.transactions[i].inputs[u];
    k < |b.authorizations| ==> o in utxos && b.authorizations[k] == utxos[o].address
  }

  ghost predicate OwnersSigned(utxos: map<OutPoint, FilledOutput>, b: Body) {
    forall i: nat, u: nat {:trigger OwnerSigned(utxos, b, i, u)} | i < |b.transactions|
      && u < |b.transactions[i].inputs| ::
      OwnerSigned(utxos, b, i, u)
  }

  lemma {:induction false} SpentCounted(base: map<OutPoint, FilledOutput>, txs: seq<Transaction>, n: nat)
    requires n <= |txs| && AllIn(base, txs)
    ensures |Batching.AllSpent(FilledAll(base, txs), n)| == Offset(txs, n)
  {
    if n > 0 {
      SpentCounted(base, txs, n - 1);
    }
  }

  lemma {:induction false} SpentInOrder(base: map<OutPoint, FilledOutput>, txs: seq<Transaction>, n: nat, i: nat,
                                        u: nat)
    requires i < n <= |txs| && u < |txs[i].inputs| && AllIn(base, txs)
    ensures |Batching.AllSpent(FilledAll(base, txs), n)| == Offset(txs, n) && Offset(txs, i) + u < Offset(txs, n)
    ensures txs[i].inputs[u] in base
    ensures Batching.AllSpent(FilledAll(base, txs), n)[Offset(txs, i) + u] == base[txs[i].inputs[u]]
  {
    SpentCounted(base, txs, n);
    SpentCounted(base, txs, n - 1);
    OffsetMono(txs, i, n);
    assert InputsIn(base, txs[i]);
    if i < n - 1 {
      SpentInOrder(base, txs, n - 1, i, u);
    }
  }

  lemma OwnersAre(base: map<OutPoint, FilledOutput>, b: Body)
    requires AllIn(base, b.transactions)
    ensures Batching.AuthorizedByOwners(b, Batching.AllSpent(FilledAll(base, b.transactions), |b.transactions|))
            <==> OwnersSigned(base, b)
  {
    var txs, n := b.transactions, |b.transactions|;
    var spent := Batching.AllSpent(FilledAll(base, txs), n);
    SpentCounted(base, txs, n);
    if Batching.AuthorizedByOwners(b, spent) {
      forall i: nat, u: nat | i < n && u < |txs[i].inputs|
        ensures OwnerSigned(base, b, i, u)
      {
        SpentInOrder(base, txs, n, i, u);
      }
    }
    if OwnersSigned(base, b) {
      forall k | 0 <= k < |b.authorizations| && k < |spent|
        ensures b.authorizations[k] == spent[k].address
      {
        var i, u := Locate(txs, n, k);
        SpentInOrder(base, txs, n, i, u);
        assert OwnerSigned(base, b, i, u);
      }
    }
  }

  // ---- validity ----

  /**
   The amounts of a block: every transaction has a fee, both sums fit, and the
   coinbase pays out no more than the fees.
   */
  ghost predicate PaidFor(rules: Rules, s: StateDb, b: Body, filled: seq<FilledTransaction>) {
    && AllHaveFees(rules, s, filled, |filled|)
    && Sum(Payouts(b.coinbase)) < U64_LIMIT && Sum(Fees(rules, s, filled)) < U64_LIMIT
    && Sum(Payouts(b.coinbase)) <= Sum(Fees(rules, s, filled))
  }

  ghost predicate ValidBlock(rules: Rules, s: StateDb, h: Header, b: Body) {
    var base, txs := s.coins.utxos, b.transactions;
    && rules.withinSize(b) && s.tip == h.prevSide && AllIn(base, txs)
    && rules.merkleRoot(b.coinbase, FilledAll(base, txs)) == Some(h.merkleRoot)
    && SpendsOnce(txs) && PaidFor(rules, s, b, FilledAll(base, txs))
    && OwnersSigned(base, b) && rules.authorized(b)
  }

  lemma AmountsExact(rules: Rules, s: StateDb, b: Body)
    requires AllIn(s.coins.utxos, b.transactions)
    ensures var filled := FilledAll(s.coins.utxos, b.transactions);
            var r := Batching.CheckAmounts(rules, s, b, filled);
            && (r.Ok? <==> && SpendsOnce(b.transactions) && PaidFor(rules, s, b, filled)
                           && OwnersSigned(s.coins.utxos, b) && rules.authorized(b))
            && (r.Ok? ==> r.value == Batching.Amounts(Sum(Payouts(b.coinbase)), Sum(Fees(rules, s, filled))))
  {
    var filled := FilledAll(s.coins.utxos, b.transactions);
    CoinbaseSum(b.coinbase, |b.coinbase|);
    FeeSum(rules, s, filled, |filled|);
    assert Payouts(b.coinbase)[..|b.coinbase|] == Payouts(b.coinbase);
    assert Fees(rules, s, filled)[..|filled|] == Fees(rules, s, filled);
    DistinctIsSpendsOnce(b.transactions);
    OwnersAre(s.coins.utxos, b);
  }

  /**
   A block is validated exactly if it is valid, and what is then known about it
   are its filled transactions, its root, the sum of its fees, the sum that its
   coinbase pays out and the height it will have.
   */
  lemma PrevalidateExact(rules: Rules, s: StateDb, h: Header, b: Body)
    ensures Batching.Prevalidate(rules, s, h, b).Ok? <==> ValidBlock(rules, s, h, b)
    ensures ValidBlock(rules, s, h, b) ==>
              var filled := FilledAll(s.coins.utxos, b.transactions);
              Batching.Prevalidate(rules, s, h, b)
              == Ok(Batching.Prevalidated(filled, h.merkleRoot, Sum(Fees(rules, s, filled)), Sum(Payouts(b.coinbase)),
                                          if s.height.None? then 0 else s.height.value + 1))
  {
    RootExact(rules, s, h, b);
    if AllIn(s.coins.utxos, b.transactions) {
      FilledAllIs(s.coins, b.transactions, FillAll(s.coins, b.transactions, |b.transactions|).value);
      AmountsExact(rules, s, b);
    }
  }
}
