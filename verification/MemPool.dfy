/**
 The pool of pending transactions with two tables derived from it: which inputs
 are spent, and which transactions concern an address. Deleting a transaction
 also deletes whatever spends its outputs.
 */
module MemPool {
  import opened Wrappers
  import opened ChainTypes
  import opened Transactions

  datatype Error = UtxoDoubleSpent | MissingTransaction(missing: Txid)

  /** A transaction and the addresses that signed it. */
  datatype Signed = Signed(tx: Transaction, signers: seq<Address>) {
    /** Every address that the transaction concerns. */
    function Addresses(): set<Address> {
      (set a | a in signers) + (set o | o in tx.outputs :: o.address)
    }
  }

  type Pending = map<Txid, Signed>
  type Spent = map<OutPoint, InPoint>
  type ByAddress = map<Address, set<Txid>>

  // ---- the derived tables ----

  ghost predicate SpentRow(txs: Pending, spent: Spent, t: Txid, vin: nat)
    requires t in txs && vin < |txs[t].tx.inputs|
  {
    txs[t].tx.inputs[vin] in spent && spent[txs[t].tx.inputs[vin]] == RegularIn(t, vin)
  }

  /** A row of the spent table names the input that it stands for. */
  ghost predicate SpentSource(txs: Pending, spent: Spent, o: OutPoint)
    requires o in spent
  {
    && spent[o].RegularIn? && spent[o].txid in txs
    && spent[o].vin < |txs[spent[o].txid].tx.inputs| && txs[spent[o].txid].tx.inputs[spent[o].vin] == o
  }

  /** `spent` is the table of inputs of the pending transactions. */
  ghost predicate SpentExact(txs: Pending, spent: Spent) {
    && (forall t, vin: nat {:trigger SpentRow(txs, spent, t, vin)} | t in txs && vin < |txs[t].tx.inputs| ::
        SpentRow(txs, spent, t, vin))
    && (forall o {:trigger SpentSource(txs, spent, o)} | o in spent :: SpentSource(txs, spent, o))
  }

  predicate Concerns(index: ByAddress, a: Address, t: Txid) {
    a in index && t in index[a]
  }

  /** `index` lists for each address the pending transactions that concern it, and holds no empty rows. */
  ghost predicate AddressesExact(txs: Pending, index: ByAddress) {
    && (forall a, t :: Concerns(index, a, t) <==> t in txs && a in txs[t].Addresses())
    && (forall a | a in index :: index[a] != {})
  }

  datatype Pool = Pool(transactions: Pending, spentUtxos: Spent, addressToTxs: ByAddress) {
    ghost predicate Valid() {
      && (forall t | t in transactions :: transactions[t].tx.txid == t)
      && SpentExact(transactions, spentUtxos) && AddressesExact(transactions, addressToTxs)
    }
  }

  // ---- putting ----

  /** Record the first `n` inputs as spent; one that is spent already stops everything. */
  function PutStxos(spent: Spent, tx: Transaction, n: nat): Option<Spent>
    requires n <= |tx.inputs|
  {
    if n == 0 then Some(spent)
    else
      var before := PutStxos(spent, tx, n - 1);
      if before.None? || tx.inputs[n - 1] in before.value then None
      else Some(before.value[tx.inputs[n - 1] := RegularIn(tx.txid, n - 1)])
  }

  lemma {:induction false} PutStxosStops(spent: Spent, tx: Transaction, n: nat, m: nat)
    requires n <= m <= |tx.inputs| && PutStxos(spent, tx, n).None?
    ensures PutStxos(spent, tx, m).None?
    decreases m
  {
    if n < m {
      PutStxosStops(spent, tx, n, m - 1);
    }
  }

  /** The table after recording the first `n` inputs: each has its row and nothing else changed. */
  ghost predicate Recorded(spent: Spent, after: Spent, tx: Transaction, n: nat)
    requires n <= |tx.inputs|
  {
    && (forall i | 0 <= i < n :: tx.inputs[i] in after && after[tx.inputs[i]] == RegularIn(tx.txid, i))
    && (forall o | o in spent :: o in after && after[o] == spent[o])
    && (forall o | o in after && o !in spent :: IsInput(tx, n, o, after[o]))
  }

  ghost predicate IsInput(tx: Transaction, n: nat, o: OutPoint, at: InPoint)
    requires n <= |tx.inputs|
  {
    at.RegularIn? && at.vin < n && tx.inputs[at.vin] == o && at.txid == tx.txid
  }

  ghost predicate Unspent(spent: Spent, inputs: seq<OutPoint>, n: nat)
    requires n <= |inputs|
  {
    && (forall i | 0 <= i < n :: inputs[i] !in spent)
    && (forall i, j | 0 <= i < j < n :: inputs[i] != inputs[j])
  }

  lemma {:induction false} PutStxosRecords(spent: Spent, tx: Transaction, n: nat)
    requires n <= |tx.inputs| && PutStxos(spent, tx, n).Some?
    ensures Recorded(spent, PutStxos(spent, tx, n).value, tx, n) && Unspent(spent, tx.inputs, n)
  {
    if n > 0 {
      PutStxosRecords(spent, tx, n - 1);
    }
  }

  /** Recording succeeds exactly when the inputs are unspent and distinct. */
  lemma {:induction false} PutStxosSucceeds(spent: Spent, tx: Transaction, n: nat)
    requires n <= |tx.inputs|
    ensures PutStxos(spent, tx, n).Some? <==> Unspent(spent, tx.inputs, n)
  {
    if n > 0 {
      PutStxosSucceeds(spent, tx, n - 1);
      var before := PutStxos(spent, tx, n - 1);
      if before.Some? {
        PutStxosRecords(spent, tx, n - 1);
        var o := tx.inputs[n - 1];
        if o in before.value && o !in spent {
          assert IsInput(tx, n - 1, o, before.value[o]);
        }
      }
    }
  }

  function Associate(index: ByAddress, a: Address, t: Txid): ByAddress {
    index[a := (if a in index then index[a] else {}) + {t}]
  }

  /** Remove `t` from the row of `a`; a row that becomes empty goes. */
  function Dissociate(index: ByAddress, a: Address, t: Txid): ByAddress {
    if a !in index then index
    else if index[a] - {t} == {} then index - {a}
    else index[a := index[a] - {t}]
  }

  /** What associating `t` with every address in `done` amounts to. */
  ghost predicate Associated(before: ByAddress, after: ByAddress, done: set<Address>, t: Txid) {
    && (forall a, u :: Concerns(after, a, u) <==> Concerns(before, a, u) || (u == t && a in done))
    && (forall a | a in after :: a in before || after[a] != {})
    && (forall a | a in after && a in before && before[a] != {} :: after[a] != {})
  }

  method AssociateAll(index: ByAddress, addresses: set<Address>, t: Txid) returns (r: ByAddress)
    ensures Associated(index, r, addresses, t)
  {
    r := index;
    var todo := addresses;
    while |todo| != 0
      invariant todo <= addresses && Associated(index, r, addresses - todo, t)
    {
      var a :| a in todo;
      ghost var was := r;
      r := Associate(r, a, t);
      todo := todo - {a};
      forall b, u
        ensures Concerns(r, b, u) <==> Concerns(index, b, u) || (u == t && b in addresses - todo)
      {
        assert Concerns(was, b, u) <==> Concerns(index, b, u) || (u == t && b in addresses - (todo + {a}));
      }
    }
    assert addresses - todo == addresses;
  }

  /** What dissociating `t` from every address in `done` amounts to. */
  ghost predicate Dissociated(before: ByAddress, after: ByAddress, done: set<Address>, t: Txid) {
    && (forall a, u :: Concerns(after, a, u) <==> Concerns(before, a, u) && !(u == t && a in done))
    && (forall a | a in after :: a in before && (before[a] != {} ==> after[a] != {}))
  }

  method DissociateAll(index: ByAddress, addresses: set<Address>, t: Txid) returns (r: ByAddress)
    ensures Dissociated(index, r, addresses, t)
  {
    r := index;
    var todo := addresses;
    while |todo| != 0
      invariant todo <= addresses && Dissociated(index, r, addresses - todo, t)
    {
      var a :| a in todo;
      ghost var was := r;
      r := Dissociate(r, a, t);
      todo := todo - {a};
      forall b, u
        ensures Concerns(r, b, u) <==> Concerns(index, b, u) && !(u == t && b in addresses - todo)
      {
        assert Concerns(was, b, u) <==> Concerns(index, b, u) && !(u == t && b in addresses - (todo + {a}));
        if b == a && a in was && was[a] - {t} == {} && u in was[a] {
          assert u == t;
        }
      }
    }
    assert addresses - todo == addresses;
  }

  /** Rows of other transactions stay, the new transaction's rows are added. */
  lemma PutSpentExact(txs: Pending, spent: Spent, s: Signed)
    requires SpentExact(txs, spent) && PutStxos(spent, s.tx, |s.tx.inputs|).Some?
    requires s.tx.txid in txs ==> txs[s.tx.txid].tx == s.tx
    ensures SpentExact(txs[s.tx.txid := s], PutStxos(spent, s.tx, |s.tx.inputs|).value)
  {
    var after := PutStxos(spent, s.tx, |s.tx.inputs|).value;
    var now := txs[s.tx.txid := s];
    PutStxosRecords(spent, s.tx, |s.tx.inputs|);
    forall t, vin: nat | t in now && vin < |now[t].tx.inputs|
      ensures SpentRow(now, after, t, vin)
    {
      if t != s.tx.txid {
        assert SpentRow(txs, spent, t, vin);
      }
    }
    forall o | o in after
      ensures SpentSource(now, after, o)
    {
      if o in spent {
        assert SpentSource(txs, spent, o);
      } else {
        assert IsInput(s.tx, |s.tx.inputs|, o, after[o]);
      }
    }
  }

  /**
   The address index stays exact exactly when the transaction was not pending, or
   was pending with no address that the new signatures lack.
   */
  lemma PutAddressesExact(txs: Pending, index: ByAddress, after: ByAddress, s: Signed)
    requires AddressesExact(txs, index) && Associated(index, after, s.Addresses(), s.tx.txid)
    ensures AddressesExact(txs[s.tx.txid := s], after) <==>
            (s.tx.txid in txs ==> txs[s.tx.txid].Addresses() <= s.Addresses())
  {
    var now := txs[s.tx.txid := s];
    if a :| s.tx.txid in txs && a in txs[s.tx.txid].Addresses() && a !in s.Addresses() {
      assert Concerns(index, a, s.tx.txid);
      assert Concerns(after, a, s.tx.txid);
    } else {
      assert s.tx.txid in txs ==> forall a | a in txs[s.tx.txid].Addresses() :: a in s.Addresses();
      forall a, t
        ensures Concerns(after, a, t) <==> t in now && a in now[t].Addresses()
      {
        assert Concerns(index, a, t) <==> t in txs && a in txs[t].Addresses();
      }
    }
  }

  // ---- deleting ----

  /** What deleting the rows of the first `n` inputs leaves. */
  function DeleteStxos(spent: Spent, inputs: seq<OutPoint>, n: nat): Spent
    requires n <= |inputs|
  {
    if n == 0 then spent else DeleteStxos(spent, inputs, n - 1) - {inputs[n - 1]}
  }

  lemma {:induction false} DeleteStxosExact(spent: Spent, inputs: seq<OutPoint>, n: nat)
    requires n <= |inputs|
    ensures DeleteStxos(spent, inputs, n) == map o | o in spent && o !in inputs[..n] :: spent[o]
  {
    if n > 0 {
      DeleteStxosExact(spent, inputs, n - 1);
      assert inputs[..n] == inputs[..n - 1] + [inputs[n - 1]];
    }
  }

  lemma DeleteSpentExact(txs: Pending, spent: Spent, t: Txid)
    requires t in txs && SpentExact(txs, spent)
    ensures SpentExact(txs - {t}, DeleteStxos(spent, txs[t].tx.inputs, |txs[t].tx.inputs|))
  {
    var inputs := txs[t].tx.inputs;
    var after := DeleteStxos(spent, inputs, |inputs|);
    DeleteStxosExact(spent, inputs, |inputs|);
    assert inputs[..|inputs|] == inputs;
    forall u, vin: nat | u in txs - {t} && vin < |txs[u].tx.inputs|
      ensures SpentRow(txs - {t}, after, u, vin)
    {
      assert SpentRow(txs, spent, u, vin);
      forall i | 0 <= i < |inputs|
        ensures inputs[i] != txs[u].tx.inputs[vin]
      {
        assert SpentRow(txs, spent, t, i);
      }
    }
    forall o | o in after
      ensures SpentSource(txs - {t}, after, o)
    {
      assert SpentSource(txs, spent, o);
    }
  }

  lemma DeleteAddressesExact(txs: Pending, index: ByAddress, after: ByAddress, t: Txid)
    requires t in txs && AddressesExact(txs, index) && Dissociated(index, after, txs[t].Addresses(), t)
    ensures AddressesExact(txs - {t}, after)
  {
    forall a, u
      ensures Concerns(after, a, u) <==> u in txs - {t} && a in (txs - {t})[u].Addresses()
    {
      assert Concerns(index, a, u) <==> u in txs && a in txs[u].Addresses();
    }
  }

  // ---- what depends on a transaction ----

  /** `child` spends an output of `parent`. */
  ghost predicate SpendsFrom(txs: Pending, parent: Txid, child: Txid) {
    && parent in txs && child in txs
    && exists vin: nat, vout: nat ::
       vin < |txs[child].tx.inputs| && vout < |txs[parent].tx.outputs| && Link(txs, parent, child, vin, vout)
  }

  ghost predicate Link(txs: Pending, parent: Txid, child: Txid, vin: nat, vout: nat)
    requires child in txs && vin < |txs[child].tx.inputs|
  {
    txs[child].tx.inputs[vin] == Regular(parent, vout)
  }

  /** `t` is `root` or depends on it through `n` spends. */
  ghost predicate DependsIn(txs: Pending, root: Txid, t: Txid, n: nat)
    decreases n
  {
    if n == 0 then t == root && t in txs
    else exists p :: DependsIn(txs, root, p, n - 1) && SpendsFrom(txs, p, t)
  }

  ghost predicate Depends(txs: Pending, root: Txid, t: Txid) {
    exists n: nat :: DependsIn(txs, root, t, n)
  }

  lemma DependsStep(txs: Pending, root: Txid, p: Txid, t: Txid)
    requires Depends(txs, root, p) && SpendsFrom(txs, p, t)
    ensures Depends(txs, root, t)
  {
    var n: nat :| DependsIn(txs, root, p, n);
    assert DependsIn(txs, root, t, n + 1);
  }

  /** A set that contains the root and everything that spends from a member contains all dependants. */
  lemma {:induction false} ClosedContainsDependants(txs: Pending, root: Txid, gone: set<Txid>, t: Txid, n: nat)
    requires DependsIn(txs, root, t, n) && root in gone
    requires forall p, c | p in gone && SpendsFrom(txs, p, c) :: c in gone
    ensures t in gone
    decreases n
  {
    if n > 0 {
      var p :| DependsIn(txs, root, p, n - 1) && SpendsFrom(txs, p, t);
      ClosedContainsDependants(txs, root, gone, p, n - 1);
    }
  }

  /** `b` keeps some of the transactions of `a`. */
  ghost predicate PartOf(b: Pending, a: Pending) {
    forall t | t in b :: t in a && b[t] == a[t]
  }

  /**
   Halfway through a delete: only dependants of the root are gone, and whatever
   spends from a transaction that is gone is gone as well or waiting.
   */
  ghost predicate Cascading(all: Pending, root: Txid, txs: Pending, queue: seq<Txid>) {
    && PartOf(txs, all)
    && (root in all ==> root !in txs || root in queue)
    && (forall t | t in all && t !in txs :: Depends(all, root, t))
    && (forall t | t in queue && t in all :: Depends(all, root, t))
    && (forall p, c | p in all && p !in txs && SpendsFrom(all, p, c) :: c !in txs || c in queue)
  }

  /** When nothing waits, exactly the dependants are gone. */
  lemma CascadeDone(all: Pending, root: Txid, txs: Pending)
    requires Cascading(all, root, txs, [])
    ensures forall t :: t in txs <==> t in all && !Depends(all, root, t)
  {
    forall t
      ensures t in txs <==> t in all && !Depends(all, root, t)
    {
      if t in all && Depends(all, root, t) {
        var n: nat :| DependsIn(all, root, t, n);
        var gone := all.Keys - txs.Keys;
        DependsRoot(all, root, t, n);
        assert forall p, c | p in gone && SpendsFrom(all, p, c) :: c in gone;
        ClosedContainsDependants(all, root, gone, t, n);
      }
    }
  }

  lemma {:induction false} DependsRoot(txs: Pending, root: Txid, t: Txid, n: nat)
    requires DependsIn(txs, root, t, n)
    ensures root in txs
    decreases n
  {
    if n > 0 {
      var p :| DependsIn(txs, root, p, n - 1) && SpendsFrom(txs, p, t);
      DependsRoot(txs, root, p, n - 1);
    }
  }

  /** What remains to be shown when a pending transaction `t` leaves the front of the queue and is deleted. */
  lemma CascadeOne(all: Pending, root: Txid, txs: Pending, t: Txid, rest: seq<Txid>, children: seq<Txid>)
    requires Cascading(all, root, txs, [t] + rest) && t in txs
    requires forall c | c in children :: SpendsFrom(txs, t, c)
    requires forall c | c in txs && c != t && SpendsFrom(txs, t, c) :: c in children
    ensures Cascading(all, root, txs - {t}, rest + children)
  {
    assert t in [t] + rest;
    var left, queue := txs - {t}, rest + children;
    forall c | c in children
      ensures c in all && Depends(all, root, c)
    {
      SpendsFromKept(txs, all, t, c);
      DependsStep(all, root, t, c);
    }
    forall p, c | p in all && p !in left && SpendsFrom(all, p, c)
      ensures c !in left || c in queue
    {
      if c in left {
        if p == t {
          SpendsFromBack(txs, all, t, c);
        } else {
          assert c in [t] + rest;
        }
      }
    }
  }

  lemma SpendsFromKept(txs: Pending, all: Pending, p: Txid, c: Txid)
    requires PartOf(txs, all) && SpendsFrom(txs, p, c)
    ensures SpendsFrom(all, p, c)
  {
    var vin: nat, vout: nat :| vin < |txs[c].tx.inputs| && vout < |txs[p].tx.outputs| && Link(txs, p, c, vin, vout);
    assert Link(all, p, c, vin, vout);
  }

  lemma SpendsFromBack(txs: Pending, all: Pending, p: Txid, c: Txid)
    requires PartOf(txs, all) && p in txs && c in txs && SpendsFrom(all, p, c)
    ensures SpendsFrom(txs, p, c)
  {
    var vin: nat, vout: nat :| vin < |all[c].tx.inputs| && vout < |all[p].tx.outputs| && Link(all, p, c, vin, vout);
    assert Link(txs, p, c, vin, vout);
  }

  /** A queued transaction that is not pending changes nothing. */
  lemma CascadeSkips(all: Pending, root: Txid, txs: Pending, t: Txid, rest: seq<Txid>)
    requires Cascading(all, root, txs, [t] + rest) && t !in txs
    ensures Cascading(all, root, txs, rest)
  {
    forall u | u in [t] + rest && u != t
      ensures u in rest
    {
    }
    forall p, c | p in all && p !in txs && SpendsFrom(all, p, c)
      ensures c !in txs || c in rest
    {
      assert c !in txs || c in [t] + rest;
    }
  }

  /**
   Looking up the outputs of a deleted transaction in the spent table finds
   exactly the transactions that spend them.
   */
  method SpendersOf(ghost txs: Pending, t: Txid, tx: Transaction, spent: Spent) returns (children: seq<Txid>)
    requires t in txs && txs[t].tx == tx && SpentExact(txs - {t}, spent)
    ensures forall c | c in children :: SpendsFrom(txs, t, c) && c in txs && c != t
    ensures forall c | c in txs && c != t && SpendsFrom(txs, t, c) :: c in children
  {
    children := [];
    var vout: nat := 0;
    while vout < |tx.outputs|
      invariant vout <= |tx.outputs|
      invariant forall c | c in children :: SpendsFrom(txs, t, c) && c in txs && c != t
      invariant forall c, vin: nat, v: nat | c in txs && c != t && vin < |txs[c].tx.inputs| && v < vout
        && Link(txs, t, c, vin, v) :: c in children
    {
      var o := Regular(t, vout);
      if o in spent {
        SpenderFound(txs, t, spent, vout);
        children := children + [spent[o].txid];
      }
      forall c, vin: nat | c in txs && c != t && vin < |txs[c].tx.inputs| && Link(txs, t, c, vin, vout)
        ensures c in children
      {
        assert SpentRow(txs - {t}, spent, c, vin);
      }
      vout := vout + 1;
    }
    forall c | c in txs && c != t && SpendsFrom(txs, t, c)
      ensures c in children
    {
      var vin: nat, v: nat :| vin < |txs[c].tx.inputs| && v < |txs[t].tx.outputs| && Link(txs, t, c, vin, v);
    }
  }

  lemma SpenderFound(txs: Pending, t: Txid, spent: Spent, vout: nat)
    requires t in txs && vout < |txs[t].tx.outputs| && SpentExact(txs - {t}, spent) && Regular(t, vout) in spent
    ensures spent[Regular(t, vout)].RegularIn?
    ensures var c := spent[Regular(t, vout)].txid; c in txs && c != t && SpendsFrom(txs, t, c)
  {
    var o := Regular(t, vout);
    assert SpentSource(txs - {t}, spent, o);
    var c, vin := spent[o].txid, spent[o].vin;
    assert Link(txs, t, c, vin, vout);
  }

  class MemPool {
    var pool: Pool

    constructor ()
      ensures pool == Pool(map[], map[], map[]) && pool.Valid()
    {
      pool := Pool(map[], map[], map[]);
    }

    /** Add a transaction, unless it spends an input twice or one that a pending transaction spends. */
    method Put(s: Signed) returns (r: Result<(), Error>)
      requires pool.Valid()
      requires s.tx.txid in pool.transactions ==> pool.transactions[s.tx.txid].tx == s.tx
      modifies this
      ensures r.Ok? <==> Unspent(old(pool).spentUtxos, s.tx.inputs, |s.tx.inputs|)
      ensures r.Err? ==> r.error == UtxoDoubleSpent && pool == old(pool)
      ensures r.Ok? ==> pool.transactions == old(pool).transactions[s.tx.txid := s]
      ensures r.Ok? ==> (pool.Valid() <==>
                (s.tx.txid in old(pool).transactions ==>
                 old(pool).transactions[s.tx.txid].Addresses() <= s.Addresses()))
    {
      PutStxosSucceeds(pool.spentUtxos, s.tx, |s.tx.inputs|);
      var stxos := RecordStxos(pool.spentUtxos, s.tx);
      if stxos.None? { return Err(UtxoDoubleSpent); }
      var index := AssociateAll(pool.addressToTxs, s.Addresses(), s.tx.txid);
      PutSpentExact(pool.transactions, pool.spentUtxos, s);
      PutAddressesExact(pool.transactions, pool.addressToTxs, index, s);
      pool := Pool(pool.transactions[s.tx.txid := s], stxos.value, index);
      return Ok(());
    }

    /** Delete a transaction, if it is pending, and everything that depends on it. */
    method Delete(txid: Txid)
      requires pool.Valid()
      modifies this
      ensures pool.Valid()
      ensures PartOf(pool.transactions, old(pool).transactions)
      ensures forall t :: t in pool.transactions <==>
        t in old(pool).transactions && !Depends(old(pool).transactions, txid, t)
    {
      ghost var all := pool.transactions;
      var queue := [txid];
      CascadeStart(all, txid);
      while queue != []
        invariant pool.Valid() && Cascading(all, txid, pool.transactions, queue)
        decreases |pool.transactions.Keys|, |queue|
      {
        queue := DeleteNext(all, txid, queue);
      }
      CascadeDone(all, txid, pool.transactions);
    }

    /** Take one transaction off the queue; if it is pending, delete it and queue its children. */
    method DeleteNext(ghost all: Pending, ghost root: Txid, queue: seq<Txid>) returns (after: seq<Txid>)
      requires pool.Valid() && queue != [] && Cascading(all, root, pool.transactions, queue)
      modifies this
      ensures pool.Valid() && Cascading(all, root, pool.transactions, after)
      ensures |pool.transactions.Keys| < |old(pool).transactions.Keys| || (pool == old(pool) && |after| < |queue|)
    {
      var t, rest := queue[0], queue[1..];
      assert queue == [t] + rest;
      if t !in pool.transactions {
        CascadeSkips(all, root, pool.transactions, t, rest);
        return rest;
      }
      ghost var before := pool.transactions;
      var children := DeleteOne(t);
      CascadeOne(all, root, before, t, rest, children);
      assert (before - {t}).Keys == before.Keys - {t};
      return rest + children;
    }

    /** Delete one pending transaction and report which pending transactions spend its outputs. */
    method DeleteOne(t: Txid) returns (children: seq<Txid>)
      requires pool.Valid() && t in pool.transactions
      modifies this
      ensures pool.Valid() && pool.transactions == old(pool).transactions - {t}
      ensures forall c | c in children :: SpendsFrom(old(pool).transactions, t, c)
      ensures forall c | c in old(pool).transactions && c != t && SpendsFrom(old(pool).transactions, t, c) ::
        c in children
    {
      var s := pool.transactions[t];
      DeleteSpentExact(pool.transactions, pool.spentUtxos, t);
      var stxos := ForgetStxos(pool.spentUtxos, s.tx.inputs);
      var index := DissociateAll(pool.addressToTxs, s.Addresses(), t);
      DeleteAddressesExact(pool.transactions, pool.addressToTxs, index, t);
      children := SpendersOf(pool.transactions, t, s.tx, stxos);
      pool := Pool(pool.transactions - {t}, stxos, index);
    }

    /** The pending transactions that concern an address; none is ever missing. */
    method TxsRelevantTo(a: Address) returns (r: Result<map<Txid, Signed>, Error>)
      requires pool.Valid()
      ensures r.Ok? && forall t :: t in r.value <==> t in pool.transactions && a in pool.transactions[t].Addresses()
      ensures forall t | t in r.value :: r.value[t] == pool.transactions[t]
    {
      var todo := if a in pool.addressToTxs then pool.addressToTxs[a] else {};
      ghost var all := todo;
      var found: map<Txid, Signed> := map[];
      assert forall t :: t in all <==> Concerns(pool.addressToTxs, a, t);
      while |todo| != 0
        invariant todo <= all && found.Keys == all - todo
        invariant forall t | t in found :: t in pool.transactions && found[t] == pool.transactions[t]
      {
        var t :| t in todo;
        assert Concerns(pool.addressToTxs, a, t);
        if t !in pool.transactions { return Err(MissingTransaction(t)); }
        found := found[t := pool.transactions[t]];
        todo := todo - {t};
      }
      return Ok(found);
    }
  }

  lemma CascadeStart(all: Pending, root: Txid)
    ensures Cascading(all, root, all, [root])
  {
    if root in all {
      assert DependsIn(all, root, root, 0);
    }
  }

  method RecordStxos(spent: Spent, tx: Transaction) returns (r: Option<Spent>)
    ensures r == PutStxos(spent, tx, |tx.inputs|)
  {
    var s := spent;
    var n := 0;
    while n < |tx.inputs|
      invariant n <= |tx.inputs| && PutStxos(spent, tx, n) == Some(s)
    {
      if tx.inputs[n] in s {
        PutStxosStops(spent, tx, n + 1, |tx.inputs|);
        return None;
      }
      s := s[tx.inputs[n] := RegularIn(tx.txid, n)];
      n := n + 1;
    }
    return Some(s);
  }

  method ForgetStxos(spent: Spent, inputs: seq<OutPoint>) returns (r: Spent)
    ensures r == DeleteStxos(spent, inputs, |inputs|)
  {
    r := spent;
    var n := 0;
    while n < |inputs|
      invariant n <= |inputs| && r == DeleteStxos(spent, inputs, n)
    {
      r := r - {inputs[n]};
      n := n + 1;
    }
  }
}
