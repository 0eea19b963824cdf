/**
 The asset tables as the state changes them, in place. An operation that fails
 may leave the tables half changed; the state then abandons the write
 transaction.
 */
module BitAssetDbs {
  import opened Wrappers
  import opened Arith
  import opened ChainTypes
  import opened Rollback
  import opened KeyOrder
  import opened BitAssets
  import Assets = BitAssets

  /** Search from the newest entry for one written at `height` or below. */
  method AtBlockHeight<T>(h: RollBack<T>, height: nat) returns (r: Option<Stamped<T>>)
    ensures r == h.AtBlockHeight(height)
  {
    var n := |h.rest|;
    assert h.rest[..n] == h.rest;
    while n > 0
      invariant n <= |h.rest| && RollBack(h.first, h.rest[..n]).AtBlockHeight(height) == h.AtBlockHeight(height)
    {
      assert h.rest[..n][..n - 1] == h.rest[..n - 1];
      if h.rest[n - 1].height <= height { return Some(h.rest[n - 1]); }
      n := n - 1;
    }
    r := if h.first.height <= height then Some(h.first) else None;
  }

  class Dbs {
    var toSeq: map<BitAssetId, nat>
    var data: map<BitAssetId, AssetData>
    var reservations: map<Txid, int>
    var toAsset: map<nat, BitAssetId>

    function Value(): Tables
      reads this
    {
      Tables(toSeq, data, reservations, toAsset)
    }

    constructor ()
      ensures Value() == Tables(map[], map[], map[], map[])
    {
      toSeq, data, reservations, toAsset := map[], map[], map[], map[];
    }

    /** An aborted write transaction leaves the tables as they were. */
    method Restore(saved: Tables)
      modifies this
      ensures Value() == saved
    {
      toSeq, data, reservations, toAsset := saved.toSeq, saved.data, saved.reservations, saved.toAsset;
    }

    /** One more than the sequence number whose key is last, or zero. */
    method NextSeq() returns (n: nat)
      ensures n == Assets.NextSeq(Value())
    {
      n := 0;
      ghost var seen: set<nat> := {};
      var todo := toAsset.Keys;
      while todo != {}
        invariant seen + todo == toAsset.Keys && seen !! todo
        invariant if n == 0 then seen == {} else IsLast(seen, n - 1)
        decreases todo
      {
        var k :| k in todo;
        LastWithOneMore(seen, n, k);
        if n == 0 || NumberAtMost(n - 1, k) { n := k + 1; }
        seen, todo := seen + {k}, todo - {k};
      }
      if n > 0 {
        LastUnique(toAsset.Keys, n - 1, LastSeq(Value()).value);
      }
    }

    method PutReservation(txid: Txid, commitment: int)
      modifies `reservations
      ensures Value() == Assets.PutReservation(old(Value()), txid, commitment)
    {
      reservations := reservations[txid := commitment];
    }

    /** Was there a reservation to delete? */
    method DeleteReservation(txid: Txid) returns (found: bool)
      modifies `reservations
      ensures found <==> txid in old(reservations)
      ensures reservations == old(reservations) - {txid}
      ensures found ==> Ok(Value()) == Assets.DeleteReservation(old(Value()), txid)
    {
      found := txid in reservations;
      reservations := reservations - {txid};
    }

    /** The asset's data as it was at a block height: every field is looked up in its own history. */
    method DataAtBlockHeight(id: BitAssetId, height: nat) returns (r: Option<PlainData>)
      ensures r == if id in data then data[id].AtBlockHeight(height) else None
    {
      if id !in data { return None; }
      var d := data[id];
      var commitment := AtBlockHeight(d.commitment, height);
      if commitment.None? { return None; }
      var v4 := AtBlockHeight(d.socketV4, height);
      if v4.None? { return None; }
      var v6 := AtBlockHeight(d.socketV6, height);
      if v6.None? { return None; }
      var encryption := AtBlockHeight(d.encryptionKey, height);
      if encryption.None? { return None; }
      var signing := AtBlockHeight(d.signingKey, height);
      if signing.None? { return None; }
      return Some(PlainData(commitment.value.data, v4.value.data, v6.value.data, encryption.value.data,
                            signing.value.data));
    }

    method FindBurned(spent: seq<(Txid, int)>, implied: int) returns (burned: Option<Txid>)
      ensures burned == FindReservation(spent, implied)
    {
      var n := 0;
      assert spent[0..] == spent;
      while n < |spent|
        invariant n <= |spent| && FindReservation(spent[n..], implied) == FindReservation(spent, implied)
      {
        assert spent[n..][0] == spent[n] && spent[n..][1..] == spent[n + 1..];
        if spent[n].1 == implied { return Some(spent[n].0); }
        n := n + 1;
      }
      burned := None;
    }

    method ApplyRegistration(id: BitAssetId, spent: seq<(Txid, int)>, implied: int, d: PlainData, supply: nat,
                             txid: Txid, height: nat)
      returns (r: Result<(), Error>)
      modifies this
      ensures r.Ok? ==> Register(old(Value()), id, spent, implied, d, supply, txid, height) == Ok(Value())
      ensures r.Err? ==> Register(old(Value()), id, spent, implied, d, supply, txid, height) == Err(r.error)
    {
      var burned := FindBurned(spent, implied);
      if burned.None? { return Err(NoReservationForRegistration); }
      var found := DeleteReservation(burned.value);
      if !found { return Err(Error.MissingReservation); }
      var seqNumber := NextSeq();
      SameNextSeq(old(Value()), Value());
      if seqNumber >= U32_LIMIT { return Err(Panic); }
      toAsset := toAsset[seqNumber := id];
      toSeq := toSeq[id := seqNumber];
      data := data[id := InitData(d, supply, txid, height)];
      return Ok(());
    }

    method RevertRegistration(id: BitAssetId, spent: seq<(Txid, int)>, implied: int) returns (r: Result<(), Error>)
      modifies this
      ensures r.Ok? ==> RevertRegister(old(Value()), id, spent, implied) == Ok(Value())
      ensures r.Err? ==> RevertRegister(old(Value()), id, spent, implied) == Err(r.error)
    {
      if id !in toSeq { return Err(Missing); }
      var seqNumber := toSeq[id];
      toSeq := toSeq - {id};
      if seqNumber !in toAsset { return Err(Missing); }
      toAsset := toAsset - {seqNumber};
      if id !in data { return Err(Missing); }
      data := data - {id};
      var burned := FindBurned(spent, implied);
      if burned.None? { return Err(Panic); }
      reservations := reservations[burned.value := implied];
      return Ok(());
    }

    method ApplyMint(id: BitAssetId, amount: nat, txid: Txid, height: nat) returns (r: Result<(), Error>)
      modifies `data
      ensures r.Ok? ==> Mint(old(Value()), id, amount, txid, height) == Ok(Value())
      ensures r.Err? ==> Mint(old(Value()), id, amount, txid, height) == Err(r.error)
    {
      if id !in data { return Err(Missing); }
      var d := data[id];
      var supply := d.totalSupply.Latest().data + amount;
      if supply >= U64_LIMIT { return Err(TotalSupplyOverflow); }
      data := data[id := d.(totalSupply := d.totalSupply.Push(supply, txid, height))];
      return Ok(());
    }

    method RevertMint(id: BitAssetId, amount: nat) returns (r: Result<(), Error>)
      modifies `data
      ensures r.Ok? ==> Assets.RevertMint(old(Value()), id, amount) == Ok(Value())
      ensures r.Err? ==> Assets.RevertMint(old(Value()), id, amount) == Err(r.error)
    {
      if id !in data { return Err(Missing); }
      var d := data[id];
      var supply := d.totalSupply.Latest().data;
      var history := d.totalSupply.Pop().0;
      if supply < amount { return Err(TotalSupplyUnderflow); }
      if history.Latest().data != supply - amount { return Err(Panic); }
      data := data[id := d.(totalSupply := history)];
      return Ok(());
    }

    method ApplyUpdates(id: BitAssetId, u: Updates, txid: Txid, height: nat) returns (r: Result<(), Error>)
      modifies `data
      ensures r.Ok? ==> UpdateData(old(Value()), id, u, txid, height) == Ok(Value())
      ensures r.Err? ==> UpdateData(old(Value()), id, u, txid, height) == Err(r.error)
    {
      if id !in data { return Err(Missing); }
      data := data[id := data[id].ApplyUpdates(u, txid, height)];
      return Ok(());
    }

    method RevertUpdates(id: BitAssetId, u: Updates, txid: Txid, height: nat) returns (r: Result<(), Error>)
      modifies `data
      ensures r.Ok? ==> RevertUpdate(old(Value()), id, u, txid, height) == Ok(Value())
      ensures r.Err? ==> RevertUpdate(old(Value()), id, u, txid, height) == Err(r.error)
    {
      if id !in data { return Err(Missing); }
      var d := data[id].RevertUpdates(u, txid, height);
      if d.Err? { return Err(d.error); }
      data := data[id := d.value];
      return Ok(());
    }
  }

  lemma LastWithOneMore(seen: set<nat>, n: nat, k: nat)
    requires k !in seen && if n == 0 then seen == {} else IsLast(seen, n - 1)
    ensures IsLast(seen + {k}, if n == 0 || NumberAtMost(n - 1, k) then k else n - 1)
  {
    NumberOrder(k, k);
    if n > 0 {
      NumberOrder(n - 1, k);
      assert seen + {k} - {k} == seen;
      LastOfMore(seen + {k}, k, n - 1, if NumberAtMost(n - 1, k) then k else n - 1);
    }
  }

  lemma SameNextSeq(t: Tables, u: Tables)
    requires t.toAsset == u.toAsset
    ensures Assets.NextSeq(t) == Assets.NextSeq(u)
  {
    if t.toAsset != map[] {
      LastUnique(t.toAsset.Keys, LastSeq(t).value, LastSeq(u).value);
    }
  }
}
