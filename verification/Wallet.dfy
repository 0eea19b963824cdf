/** Choosing coins to spend, building a transfer from them, and recording coins as spent. */
module Wallet {
  import opened Wrappers
  import opened Arith
  import opened Transactions
  import ChainTypes

  datatype Error = AmountOverflow | NotEnoughFunds

  /** An output of an unconfirmed transaction that is already spent. */
  datatype SpentUnconfirmed = SpentUnconfirmed(output: Output, inpoint: InPoint)

  /** Values of outpoints. */
  type Amounts = map<OutPoint, nat>

  datatype Tables = Tables(
    utxos: map<OutPoint, FilledOutput>,
    unconfirmed: map<OutPoint, Output>,
    stxos: map<OutPoint, SpentOutput>,
    spentUnconfirmed: map<OutPoint, SpentUnconfirmed>)
  {
    /** Confirmed and unconfirmed bitcoin outputs with their values. */
    function Confirmed(): Amounts {
      map o | o in utxos && utxos[o].content.FilledBitcoin? :: utxos[o].content.value
    }

    function Unconfirmed(): Amounts {
      map o | o in unconfirmed && unconfirmed[o].content.BitcoinOut? :: unconfirmed[o].content.value
    }

    /** No outpoint is both confirmed and unconfirmed. */
    ghost predicate Disjoint() {
      forall o | o in utxos :: o !in unconfirmed
    }

    /** All bitcoin outputs, and those worth something. */
    function Coins(): Amounts {
      Confirmed() + Unconfirmed()
    }

    function Eligible(): set<OutPoint> {
      Positive(Coins())
    }
  }

  function Positive(v: Amounts): set<OutPoint> {
    set o | o in v && v[o] > 0
  }

  // ---- sums ----

  ghost function Total(s: set<OutPoint>, v: Amounts): nat
    requires s <= v.Keys
  {
    if s == {} then 0
    else
      var x :| x in s;
      v[x] + Total(s - {x}, v)
  }

  lemma {:induction false} TotalRemove(s: set<OutPoint>, v: Amounts, x: OutPoint)
    requires s <= v.Keys && x in s
    ensures Total(s, v) == v[x] + Total(s - {x}, v)
  {
    var y :| y in s && Total(s, v) == v[y] + Total(s - {y}, v);
    if y != x {
      TotalRemove(s - {y}, v, x);
      TotalRemove(s - {x}, v, y);
      assert s - {y} - {x} == s - {x} - {y};
    }
  }

  lemma TotalAdd(s: set<OutPoint>, v: Amounts, x: OutPoint)
    requires s <= v.Keys && x in v && x !in s
    ensures Total(s + {x}, v) == Total(s, v) + v[x]
  {
    TotalRemove(s + {x}, v, x);
    assert s + {x} - {x} == s;
  }

  lemma {:induction false} TotalSubset(s: set<OutPoint>, t: set<OutPoint>, v: Amounts)
    requires s <= t <= v.Keys
    ensures Total(s, v) <= Total(t, v)
    decreases |t|
  {
    if s != t {
      var x :| x in t && x !in s;
      TotalRemove(t, v, x);
      TotalSubset(s, t - {x}, v);
    }
  }

  // ---- rows sorted by value ----

  type Row = (OutPoint, nat)

  ghost predicate Sorted(rows: seq<Row>) {
    forall i, j | 0 <= i < j < |rows| :: rows[i].1 <= rows[j].1
  }

  /** Each entry of `v` once. */
  ghost predicate Lists(rows: seq<Row>, v: Amounts) {
    && (forall i | 0 <= i < |rows| :: rows[i].0 in v && v[rows[i].0] == rows[i].1)
    && (forall i, j | 0 <= i < j < |rows| :: rows[i].0 != rows[j].0)
    && (forall o | o in v :: Listed(rows, o))
  }

  ghost predicate Listed(rows: seq<Row>, o: OutPoint) {
    exists i :: 0 <= i < |rows| && rows[i].0 == o
  }

  /** Collect the entries of `v` in some order and sort them by value. */
  method SortedRows(v: Amounts) returns (rows: seq<Row>)
    ensures Sorted(rows) && Lists(rows, v)
  {
    rows := [];
    var todo := v.Keys;
    ghost var done: Amounts := map[];
    while |todo| != 0
      invariant todo <= v.Keys && done == v - todo
      invariant Sorted(rows) && Lists(rows, done)
    {
      var o :| o in todo;
      var n := Position(rows, v[o]);
      InsertKeeps(rows, done, n, o, v[o]);
      rows := Inserted(rows, n, (o, v[o]));
      done := done[o := v[o]];
      todo := todo - {o};
    }
    assert done == v;
  }

  /** Where a value belongs in sorted rows. */
  method Position(rows: seq<Row>, value: nat) returns (n: nat)
    requires Sorted(rows)
    ensures n <= |rows| && (forall i | 0 <= i < n :: rows[i].1 <= value)
            && (forall i | n <= i < |rows| :: value <= rows[i].1)
  {
    n := 0;
    while n < |rows| && rows[n].1 <= value
      invariant n <= |rows| && forall i | 0 <= i < n :: rows[i].1 <= value
    {
      n := n + 1;
    }
  }

  function Inserted(rows: seq<Row>, n: nat, row: Row): (r: seq<Row>)
    requires n <= |rows|
    ensures |r| == |rows| + 1 && r[n] == row
    ensures forall i | 0 <= i < |r| && i != n :: r[i] == rows[if i < n then i else i - 1]
  {
    rows[..n] + [row] + rows[n..]
  }

  lemma InsertKeeps(rows: seq<Row>, done: Amounts, n: nat, o: OutPoint, value: nat)
    requires Sorted(rows) && Lists(rows, done) && o !in done && n <= |rows|
    requires (forall i | 0 <= i < n :: rows[i].1 <= value) && (forall i | n <= i < |rows| :: value <= rows[i].1)
    ensures Sorted(Inserted(rows, n, (o, value))) && Lists(Inserted(rows, n, (o, value)), done[o := value])
  {
    var now := Inserted(rows, n, (o, value));
    forall p | p in done[o := value]
      ensures Listed(now, p)
    {
      if p != o {
        assert Listed(rows, p);
        var i :| 0 <= i < |rows| && rows[i].0 == p;
        assert now[if i < n then i else i + 1].0 == p;
      }
    }
  }

  // ---- selection ----

  /** Coins taken so far: the valuable ones among the first `n` rows. */
  ghost predicate TookFirst(rows: seq<Row>, n: nat, taken: set<OutPoint>) {
    && n <= |rows|
    && (forall i | 0 <= i < n && rows[i].1 > 0 :: rows[i].0 in taken)
    && (forall o | o in taken :: TakenBefore(rows, n, o))
  }

  ghost predicate TakenBefore(rows: seq<Row>, n: nat, o: OutPoint) {
    exists i :: 0 <= i < n && i < |rows| && rows[i].0 == o && rows[i].1 > 0
  }

  /** The last coin taken was needed. */
  ghost predicate LastNeeded(taken: set<OutPoint>, v: Amounts, value: nat)
    requires taken <= v.Keys
  {
    taken != {} ==> exists o :: o in taken && Total(taken, v) - v[o] < value
  }

  /** Confirmed coins come first, and within each kind smaller ones. */
  ghost predicate InOrder(t: Tables, taken: set<OutPoint>) {
    forall x, y | x in taken && y in t.Eligible() && y !in taken && x in t.Coins() :: Precedes(t, x, y)
  }

  ghost predicate Precedes(t: Tables, x: OutPoint, y: OutPoint)
    requires x in t.Coins() && y in t.Coins()
  {
    if x in t.Confirmed() && y !in t.Confirmed() then true
    else (x in t.Confirmed() <==> y in t.Confirmed()) && t.Coins()[x] <= t.Coins()[y]
  }

  datatype Selection = Selection(total: nat, selected: map<OutPoint, Output>)

  function AsOutput(t: Tables, o: OutPoint): Output
    requires o in t.Coins()
  {
    if o in t.Confirmed() then Output(t.utxos[o].address, BitcoinOut(t.utxos[o].content.value), t.utxos[o].memo)
    else t.unconfirmed[o]
  }

  /** What a selection of at least `value` must be. */
  ghost predicate SelectionFits(t: Tables, value: nat, s: Selection) {
    && s.selected.Keys <= t.Eligible() && s.total == Total(s.selected.Keys, t.Coins()) && s.total >= value
    && (forall o | o in s.selected :: s.selected[o] == AsOutput(t, o))
    && LastNeeded(s.selected.Keys, t.Coins(), value) && InOrder(t, s.selected.Keys)
  }

  class Wallet {
    var tables: Tables

    constructor ()
      ensures tables == Tables(map[], map[], map[], map[])
    {
      tables := Tables(map[], map[], map[], map[]);
    }

    /** All bitcoin coins, confirmed ones first, each kind sorted by value. */
    method CoinRows() returns (rows: seq<Row>, ghost confirmed: nat)
      requires tables.Disjoint()
      ensures Lists(rows, tables.Coins()) && RowsOrdered(tables, rows, confirmed)
    {
      var a := SortedRows(tables.Confirmed());
      var b := SortedRows(tables.Unconfirmed());
      confirmed := |a|;
      rows := a + b;
      JoinRows(tables, a, b);
    }

    /**
     Choose coins worth at least `value`. It succeeds whenever the eligible coins
     cover the value and amounts stay within 64 bits, and reports missing funds
     exactly when they do not cover it.
     */
    method SelectBitcoins(value: nat) returns (r: Result<Selection, Error>)
      requires tables.Disjoint() && value < U64_LIMIT
      ensures r.Ok? ==> SelectionFits(tables, value, r.value) && r.value.total < U64_LIMIT
      ensures r == Err(NotEnoughFunds) <==> Total(tables.Eligible(), tables.Coins()) < value
      ensures r == Err(AmountOverflow) ==> Total(tables.Eligible(), tables.Coins()) >= U64_LIMIT
    {
      var rows;
      ghost var confirmed;
      rows, confirmed := CoinRows();
      var taken, total, overflow;
      ghost var n;
      taken, total, overflow, n := TakeCoins(tables.Coins(), rows, value);
      if overflow { return Err(AmountOverflow); }
      if total < value { return Err(NotEnoughFunds); }
      RestFollows(tables, rows, confirmed, n, value, taken, total);
      var selected := map o | o in taken && o in tables.Coins() :: AsOutput(tables, o);
      assert selected.Keys == taken;
      return Ok(Selection(total, selected));
    }

    /**
     Fund outputs and a fee, paying change to a new address. Inputs balance outputs
     plus fee exactly, and nothing underflows.
     */
    method CreateTransferTo(outputs: seq<Output>, fee: nat, newAddress: ChainTypes.Address)
      returns (r: Result<Draft, Error>)
      requires tables.Disjoint()
      ensures r.Ok? ==> DraftFits(tables, outputs, fee, newAddress, r.value)
      ensures SumOutputs(outputs) + fee < U64_LIMIT ==>
                (r == Err(NotEnoughFunds) <==> Total(tables.Eligible(), tables.Coins()) < SumOutputs(outputs) + fee)
      ensures SumOutputs(outputs) + fee >= U64_LIMIT ==> r == Err(AmountOverflow)
    {
      var value := AddOutputs(outputs);
      if value.None? || value.value + fee >= U64_LIMIT { return Err(AmountOverflow); }
      var s := SelectBitcoins(value.value + fee);
      if s.Err? { return Err(s.error); }
      var draft := MakeDraft(s.value.selected.Keys, outputs, s.value.total - value.value - fee, newAddress);
      return Ok(draft);
    }

    /** Record coins as spent, each in the table of its kind; unknown outpoints are ignored. */
    method SpendUtxos(spent: seq<(OutPoint, InPoint)>)
      modifies this
      ensures tables == SpendAll(old(tables), spent, |spent|)
    {
      var n := 0;
      while n < |spent|
        invariant n <= |spent| && tables == SpendAll(old(tables), spent, n)
      {
        var o, at := spent[n].0, spent[n].1;
        if o in tables.utxos {
          tables := tables.(utxos := tables.utxos - {o}, stxos := tables.stxos[o := SpentOutput(tables.utxos[o], at)]);
        } else if o in tables.unconfirmed {
          tables := tables.(unconfirmed := tables.unconfirmed - {o},
                            spentUnconfirmed :=
                              tables.spentUnconfirmed[o := SpentUnconfirmed(tables.unconfirmed[o], at)]);
        }
        n := n + 1;
      }
    }
  }

  /** Rows up to `confirmed` are confirmed coins, the rest unconfirmed, each part sorted. */
  ghost predicate RowsOrdered(t: Tables, rows: seq<Row>, confirmed: nat) {
    && confirmed <= |rows| && Sorted(rows[..confirmed]) && Sorted(rows[confirmed..])
    && (forall i | 0 <= i < |rows| :: rows[i].0 in t.Confirmed() <==> i < confirmed)
  }

  lemma JoinRows(t: Tables, a: seq<Row>, b: seq<Row>)
    requires t.Disjoint() && Sorted(a) && Sorted(b) && Lists(a, t.Confirmed()) && Lists(b, t.Unconfirmed())
    ensures Lists(a + b, t.Coins()) && RowsOrdered(t, a + b, |a|)
  {
    var rows := a + b;
    assert rows[..|a|] == a && rows[|a|..] == b;
    forall o | o in t.Coins()
      ensures Listed(rows, o)
    {
      if o in t.Confirmed() {
        assert Listed(a, o);
        var i :| 0 <= i < |a| && a[i].0 == o;
        assert rows[i].0 == o;
      } else {
        assert Listed(b, o);
        var i :| 0 <= i < |b| && b[i].0 == o;
        assert rows[|a| + i].0 == o;
      }
    }
  }

  /** The coins `taken`, worth `total`, after looking at the first `n` rows. */
  ghost predicate Progress(v: Amounts, rows: seq<Row>, n: nat, value: nat, taken: set<OutPoint>, total: nat) {
    && Lists(rows, v) && TookFirst(rows, n, taken) && taken <= Positive(v)
    && total == Total(taken, v) && LastNeeded(taken, v, value)
  }

  /** The next valuable coin was not taken yet. */
  lemma NextIsNew(v: Amounts, rows: seq<Row>, n: nat, taken: set<OutPoint>)
    requires n < |rows| && rows[n].1 > 0 && Lists(rows, v) && TookFirst(rows, n, taken)
    ensures rows[n].0 !in taken && rows[n].0 in v && v[rows[n].0] == rows[n].1
  {
    forall i | 0 <= i < n
      ensures rows[i].0 != rows[n].0
    {
    }
    assert !TakenBefore(rows, n, rows[n].0);
  }

  lemma TakeNext(v: Amounts, rows: seq<Row>, n: nat, value: nat, taken: set<OutPoint>, total: nat)
    requires n < |rows| && rows[n].1 > 0 && Progress(v, rows, n, value, taken, total) && total < value
    ensures total + rows[n].1 <= Total(Positive(v), v) && rows[n].0 in v
    ensures Progress(v, rows, n + 1, value, taken + {rows[n].0}, total + rows[n].1)
  {
    var o := rows[n].0;
    NextIsNew(v, rows, n, taken);
    TotalAdd(taken, v, o);
    TotalSubset(taken + {o}, Positive(v), v);
    NeededNow(taken + {o}, v, value, o);
    TookOneMore(rows, n, taken);
  }

  lemma NeededNow(taken: set<OutPoint>, v: Amounts, value: nat, o: OutPoint)
    requires taken <= v.Keys && o in taken && Total(taken, v) - v[o] < value
    ensures LastNeeded(taken, v, value)
  {
  }

  lemma TookOneMore(rows: seq<Row>, n: nat, taken: set<OutPoint>)
    requires n < |rows| && TookFirst(rows, n, taken)
    ensures TookFirst(rows, n + 1, if rows[n].1 > 0 then taken + {rows[n].0} else taken)
  {
    var now := if rows[n].1 > 0 then taken + {rows[n].0} else taken;
    forall o | o in now
      ensures TakenBefore(rows, n + 1, o)
    {
      if o in taken {
        assert TakenBefore(rows, n, o);
      } else {
        assert rows[n].0 == o;
      }
    }
  }

  /** Take coins in order until they are worth `value`, skipping worthless ones; stops early if the sum overflows. */
  method TakeCoins(v: Amounts, rows: seq<Row>, value: nat)
    returns (taken: set<OutPoint>, total: nat, overflow: bool, ghost n: nat)
    requires Lists(rows, v) && value < U64_LIMIT
    ensures !overflow ==> Progress(v, rows, n, value, taken, total) && total < U64_LIMIT
    ensures !overflow && total < value ==> total == Total(Positive(v), v)
    ensures overflow ==> Total(Positive(v), v) >= U64_LIMIT
    ensures !overflow ==> total <= Total(Positive(v), v)
  {
    taken, total, overflow := {}, 0, false;
    var i := 0;
    while i < |rows| && (rows[i].1 == 0 || total < value)
      invariant i <= |rows| && Progress(v, rows, i, value, taken, total) && total < U64_LIMIT
    {
      TookOneMore(rows, i, taken);
      if rows[i].1 > 0 {
        TakeNext(v, rows, i, value, taken, total);
        if total + rows[i].1 >= U64_LIMIT { return taken, total, true, i; }
        taken, total := taken + {rows[i].0}, total + rows[i].1;
      }
      i := i + 1;
    }
    n := i;
    TotalSubset(taken, Positive(v), v);
    if total < value {
      AllTaken(v, rows, value, taken, total);
    }
  }

  /** Once all rows are seen, every coin worth something is taken. */
  lemma AllTaken(v: Amounts, rows: seq<Row>, value: nat, taken: set<OutPoint>, total: nat)
    requires Progress(v, rows, |rows|, value, taken, total)
    ensures total == Total(Positive(v), v)
  {
    forall o | o in Positive(v)
      ensures o in taken
    {
      assert Listed(rows, o);
    }
    assert taken == Positive(v);
  }

  /** Whatever was not selected comes later in the order. */
  lemma RestFollows(t: Tables, rows: seq<Row>, confirmed: nat, n: nat, value: nat, taken: set<OutPoint>, total: nat)
    requires Progress(t.Coins(), rows, n, value, taken, total) && RowsOrdered(t, rows, confirmed)
    ensures InOrder(t, taken)
  {
    forall x, y | x in taken && y in t.Eligible() && y !in taken && x in t.Coins()
      ensures Precedes(t, x, y)
    {
      assert TakenBefore(rows, n, x) && Listed(rows, y);
      var i :| 0 <= i < n && rows[i].0 == x && rows[i].1 > 0;
      var j :| 0 <= j < |rows| && rows[j].0 == y;
      assert i < j;
      assert rows[i] == if i < confirmed then rows[..confirmed][i] else rows[confirmed..][i - confirmed];
      assert rows[j] == if j < confirmed then rows[..confirmed][j] else rows[confirmed..][j - confirmed];
    }
  }

  // ---- transfers ----

  datatype Draft = Draft(inputs: seq<OutPoint>, outputs: seq<Output>)

  function SumOutputs(outputs: seq<Output>): nat {
    if outputs == [] then 0 else SumOutputs(outputs[..|outputs| - 1]) + BitcoinValue(outputs[|outputs| - 1])
  }

  lemma SumOutputsStep(outputs: seq<Output>, n: nat)
    requires n < |outputs|
    ensures SumOutputs(outputs[..n + 1]) == SumOutputs(outputs[..n]) + BitcoinValue(outputs[n])
  {
    assert outputs[..n + 1][..n] == outputs[..n];
  }

  lemma SumOutputsAppend(outputs: seq<Output>, o: Output)
    ensures SumOutputs(outputs + [o]) == SumOutputs(outputs) + BitcoinValue(o)
  {
    assert (outputs + [o])[..|outputs|] == outputs;
  }

  lemma {:induction false} SumOutputsMonotone(outputs: seq<Output>, n: nat)
    requires n <= |outputs|
    ensures SumOutputs(outputs[..n]) <= SumOutputs(outputs)
    decreases |outputs| - n
  {
    if n < |outputs| {
      SumOutputsStep(outputs, n);
      SumOutputsMonotone(outputs, n + 1);
    } else {
      assert outputs[..n] == outputs;
    }
  }

  /** The value of all outputs, if it fits 64 bits. */
  method AddOutputs(outputs: seq<Output>) returns (value: Option<nat>)
    ensures value == if SumOutputs(outputs) < U64_LIMIT then Some(SumOutputs(outputs)) else None
  {
    var total := 0;
    var n := 0;
    while n < |outputs|
      invariant n <= |outputs| && total == SumOutputs(outputs[..n]) < U64_LIMIT
    {
      SumOutputsStep(outputs, n);
      if total + BitcoinValue(outputs[n]) >= U64_LIMIT {
        SumOutputsMonotone(outputs, n + 1);
        return None;
      }
      total := total + BitcoinValue(outputs[n]);
      n := n + 1;
    }
    assert outputs[..n] == outputs;
    return Some(total);
  }

  /** Inputs in some order, and outputs with change if there is any. */
  method MakeDraft(coins: set<OutPoint>, outputs: seq<Output>, change: nat, newAddress: ChainTypes.Address)
    returns (d: Draft)
    ensures |d.inputs| == |coins| && (set o | o in d.inputs) == coins
    ensures SumOutputs(d.outputs) == SumOutputs(outputs) + change && OutputsFit(outputs, newAddress, d.outputs)
  {
    var inputs := InSomeOrder(coins);
    if change == 0 { return Draft(inputs, outputs); }
    SumOutputsAppend(outputs, Output(newAddress, BitcoinOut(change), 0));
    return Draft(inputs, outputs + [Output(newAddress, BitcoinOut(change), 0)]);
  }

  /** The given outputs, and at most one more: change in bitcoin to the new address, without a memo. */
  ghost predicate OutputsFit(outputs: seq<Output>, newAddress: ChainTypes.Address, all: seq<Output>) {
    || all == outputs
    || (|all| == |outputs| + 1 && all[..|outputs|] == outputs
        && all[|outputs|].address == newAddress && all[|outputs|].memo == 0
        && all[|outputs|].content.BitcoinOut? && all[|outputs|].content.value > 0)
  }

  method InSomeOrder(s: set<OutPoint>) returns (r: seq<OutPoint>)
    ensures |r| == |s| && forall o :: o in r <==> o in s
  {
    r := [];
    var todo := s;
    while |todo| != 0
      invariant todo <= s && |r| + |todo| == |s| && forall o :: o in r <==> o in s - todo
    {
      var o :| o in todo;
      r := r + [o];
      todo := todo - {o};
    }
  }

  /**
   A draft spends distinct eligible coins worth exactly its outputs plus the fee;
   it starts with the given outputs.
   */
  ghost predicate DraftFits(t: Tables, outputs: seq<Output>, fee: nat, newAddress: ChainTypes.Address, d: Draft) {
    var inputs := set o | o in d.inputs;
    && inputs <= t.Eligible() && |d.inputs| == |inputs|
    && Total(inputs, t.Coins()) == SumOutputs(d.outputs) + fee
    && OutputsFit(outputs, newAddress, d.outputs)
  }

  // ---- spending ----

  function SpendAll(t: Tables, spent: seq<(OutPoint, InPoint)>, n: nat): Tables
    requires n <= |spent|
  {
    if n == 0 then t else SpendOne(SpendAll(t, spent, n - 1), spent[n - 1].0, spent[n - 1].1)
  }

  function SpendOne(t: Tables, o: OutPoint, at: InPoint): Tables {
    if o in t.utxos then t.(utxos := t.utxos - {o}, stxos := t.stxos[o := SpentOutput(t.utxos[o], at)])
    else if o in t.unconfirmed then
      t.(unconfirmed := t.unconfirmed - {o},
         spentUnconfirmed := t.spentUnconfirmed[o := SpentUnconfirmed(t.unconfirmed[o], at)])
    else t
  }

  /** Entry `i` of the list moved its coin, if there was one, to the table of spent coins of its kind. */
  ghost predicate Moved(before: Tables, after: Tables, o: OutPoint, at: InPoint) {
    && o !in after.utxos && o !in after.unconfirmed
    && (o in before.utxos ==> o in after.stxos && after.stxos[o] == SpentOutput(before.utxos[o], at))
    && (o in before.unconfirmed ==>
        o in after.spentUnconfirmed && after.spentUnconfirmed[o] == SpentUnconfirmed(before.unconfirmed[o], at))
  }

  /** Rows of an outpoint in all four tables are the same. */
  ghost predicate SameRows(a: Tables, b: Tables, o: OutPoint) {
    && (o in a.utxos <==> o in b.utxos) && (o in a.utxos ==> a.utxos[o] == b.utxos[o])
    && (o in a.unconfirmed <==> o in b.unconfirmed) && (o in a.unconfirmed ==> a.unconfirmed[o] == b.unconfirmed[o])
    && (o in a.stxos <==> o in b.stxos) && (o in a.stxos ==> a.stxos[o] == b.stxos[o])
    && (o in a.spentUnconfirmed <==> o in b.spentUnconfirmed)
    && (o in a.spentUnconfirmed ==> a.spentUnconfirmed[o] == b.spentUnconfirmed[o])
  }

  /** Outpoints that are not listed are not touched. */
  lemma {:induction false} SpendAllSame(t: Tables, spent: seq<(OutPoint, InPoint)>, n: nat, o: OutPoint)
    requires n <= |spent| && forall i | 0 <= i < n :: spent[i].0 != o
    ensures SameRows(t, SpendAll(t, spent, n), o)
  {
    if n > 0 {
      SpendAllSame(t, spent, n - 1, o);
    }
  }

  /** Every listed coin is moved with the first inpoint listed for it. */
  lemma {:induction false} SpendAllMoves(t: Tables, spent: seq<(OutPoint, InPoint)>, n: nat, i: nat)
    requires i < n <= |spent| && t.Disjoint() && forall j | 0 <= j < i :: spent[j].0 != spent[i].0
    ensures Moved(t, SpendAll(t, spent, n), spent[i].0, spent[i].1)
  {
    if i == n - 1 {
      SpendAllSame(t, spent, i, spent[i].0);
    } else {
      SpendAllMoves(t, spent, n - 1, i);
    }
  }
}
