/**
 Registered assets: four tables, changed by reservations, registrations, mints
 and data updates, each with a hand-written inverse.
 */
module BitAssets {
  import opened Wrappers
  import opened Arith
  import opened ChainTypes
  import opened Rollback
  import opened KeyOrder

  datatype Error =
    | Missing | MissingReservation | NoReservationForRegistration | NoBitAssetsToMint | NoBitAssetsToUpdate
    | TotalSupplyOverflow | TotalSupplyUnderflow
    | Panic

  /** Asset data as users see it; the optional values are opaque. */
  datatype PlainData = PlainData(
    commitment: Option<int>, socketV4: Option<int>, socketV6: Option<int>,
    encryptionKey: Option<int>, signingKey: Option<int>)

  datatype Update = Delete | Retain | Set(value: int)

  datatype Updates = Updates(
    commitment: Update, socketV4: Update, socketV6: Update, encryptionKey: Update, signingKey: Update)

  type Field = RollBack<Option<int>>

  function UpdateField(f: Field, u: Update, txid: Txid, height: nat): Field {
    match u
    case Delete => f.Push(None, txid, height)
    case Retain => f
    case Set(v) => f.Push(Some(v), txid, height)
  }

  /** Pop what the update pushed; popping anything else would panic. */
  function RevertField(f: Field, u: Update, txid: Txid, height: nat): Result<Field, Error> {
    if u == Retain then Ok(f)
    else if f.Pop().1 == Some(Stamped(if u.Set? then Some(u.value) else None, txid, height)) then Ok(f.Pop().0)
    else Err(Panic)
  }

  lemma RevertFieldUndoes(f: Field, u: Update, txid: Txid, height: nat)
    ensures RevertField(UpdateField(f, u, txid, height), u, txid, height) == Ok(f)
  {
    f.PopUndoesPush(if u.Set? then Some(u.value) else None, txid, height);
  }

  lemma FieldPastUnchanged(f: Field, u: Update, txid: Txid, height: nat, past: nat)
    requires past < height
    ensures UpdateField(f, u, txid, height).AtBlockHeight(past) == f.AtBlockHeight(past)
  {
    f.PastUnchanged(if u.Set? then Some(u.value) else None, txid, height, past);
  }

  /** Asset data with its history. */
  datatype AssetData = AssetData(
    commitment: Field, socketV4: Field, socketV6: Field, encryptionKey: Field, signingKey: Field,
    totalSupply: RollBack<nat>)
  {
    function ApplyUpdates(u: Updates, txid: Txid, height: nat): AssetData {
      AssetData(UpdateField(commitment, u.commitment, txid, height),
                UpdateField(socketV4, u.socketV4, txid, height),
                UpdateField(socketV6, u.socketV6, txid, height),
                UpdateField(encryptionKey, u.encryptionKey, txid, height),
                UpdateField(signingKey, u.signingKey, txid, height),
                totalSupply)
    }

    function RevertUpdates(u: Updates, txid: Txid, height: nat): Result<AssetData, Error> {
      var signing :- RevertField(signingKey, u.signingKey, txid, height);
      var encryption :- RevertField(encryptionKey, u.encryptionKey, txid, height);
      var v6 :- RevertField(socketV6, u.socketV6, txid, height);
      var v4 :- RevertField(socketV4, u.socketV4, txid, height);
      var comm :- RevertField(commitment, u.commitment, txid, height);
      Ok(AssetData(comm, v4, v6, encryption, signing, totalSupply))
    }

    /** The data as it was at a block height, if the asset existed then. */
    function AtBlockHeight(height: nat): Option<PlainData> {
      if commitment.AtBlockHeight(height).None? || socketV4.AtBlockHeight(height).None?
         || socketV6.AtBlockHeight(height).None? || encryptionKey.AtBlockHeight(height).None?
         || signingKey.AtBlockHeight(height).None? then None
      else Some(PlainData(commitment.AtBlockHeight(height).value.data, socketV4.AtBlockHeight(height).value.data,
                          socketV6.AtBlockHeight(height).value.data, encryptionKey.AtBlockHeight(height).value.data,
                          signingKey.AtBlockHeight(height).value.data))
    }

    function Supply(): nat {
      totalSupply.Latest().data
    }
  }

  function InitData(d: PlainData, supply: nat, txid: Txid, height: nat): AssetData {
    AssetData(NewRollBack(d.commitment, txid, height), NewRollBack(d.socketV4, txid, height),
              NewRollBack(d.socketV6, txid, height), NewRollBack(d.encryptionKey, txid, height),
              NewRollBack(d.signingKey, txid, height), NewRollBack(supply, txid, height))
  }

  lemma UpdatesRoundTrip(d: AssetData, u: Updates, txid: Txid, height: nat)
    ensures d.ApplyUpdates(u, txid, height).RevertUpdates(u, txid, height) == Ok(d)
  {
    RevertFieldUndoes(d.commitment, u.commitment, txid, height);
    RevertFieldUndoes(d.socketV4, u.socketV4, txid, height);
    RevertFieldUndoes(d.socketV6, u.socketV6, txid, height);
    RevertFieldUndoes(d.encryptionKey, u.encryptionKey, txid, height);
    RevertFieldUndoes(d.signingKey, u.signingKey, txid, height);
  }

  // ---- the tables ----

  datatype Tables = Tables(
    toSeq: map<BitAssetId, nat>,
    data: map<BitAssetId, AssetData>,
    reservations: map<Txid, int>,
    toAsset: map<nat, BitAssetId>)

  /** `k` has the last key of a set of numbers. */
  predicate IsLast(s: set<nat>, k: nat) {
    k in s && forall j | j in s :: NumberAtMost(j, k)
  }

  lemma LastExists(s: set<nat>)
    requires s != {}
    ensures exists k :: IsLast(s, k)
  {
    var x :| x in s;
    NumberOrder(x, x);
    if s == {x} {
      assert IsLast(s, x);
    } else {
      LastExists(s - {x});
      var k :| IsLast(s - {x}, k);
      NumberOrder(x, k);
      LastOfMore(s, x, k, if NumberAtMost(x, k) then k else x);
    }
  }

  lemma LastOfMore(s: set<nat>, x: nat, k: nat, m: nat)
    requires x in s && IsLast(s - {x}, k) && m in {x, k} && NumberAtMost(x, m) && NumberAtMost(k, m)
    ensures IsLast(s, m)
  {
    forall j | j in s
      ensures NumberAtMost(j, m)
    {
      if j != x {
        assert j in s - {x};
        LexTransitive(LittleEndian(j), LittleEndian(k), LittleEndian(m));
      }
    }
  }

  lemma LastUnique(s: set<nat>, j: nat, k: nat)
    requires IsLast(s, j) && IsLast(s, k)
    ensures j == k
  {
    NumberOrder(j, k);
  }

  /** The sequence number whose encoded key is last: numbers are stored under little-endian keys. */
  function LastSeq(t: Tables): (r: Option<nat>)
    ensures r.None? <==> t.toAsset == map[]
    ensures r.Some? ==> IsLast(t.toAsset.Keys, r.value)
  {
    if t.toAsset == map[] then None
    else
      LastExists(t.toAsset.Keys);
      assert forall j, k | IsLast(t.toAsset.Keys, j) && IsLast(t.toAsset.Keys, k) :: j == k by {
        forall j, k | IsLast(t.toAsset.Keys, j) && IsLast(t.toAsset.Keys, k)
          ensures j == k
        {
          LastUnique(t.toAsset.Keys, j, k);
        }
      }
      var k: nat :| k in t.toAsset.Keys && IsLast(t.toAsset.Keys, k);
      Some(k)
  }

  /** The sequence number the next registered asset will take. */
  function NextSeq(t: Tables): nat {
    match LastSeq(t) case None => 0 case Some(k) => k + 1
  }

  // ---- operations and their inverses ----

  function PutReservation(t: Tables, txid: Txid, commitment: int): Tables {
    t.(reservations := t.reservations[txid := commitment])
  }

  function DeleteReservation(t: Tables, txid: Txid): Result<Tables, Error> {
    if txid in t.reservations then Ok(t.(reservations := t.reservations - {txid})) else Err(MissingReservation)
  }

  /** The first spent reservation made for the implied commitment. */
  function FindReservation(spent: seq<(Txid, int)>, implied: int): Option<Txid> {
    if spent == [] then None
    else if spent[0].1 == implied then Some(spent[0].0)
    else FindReservation(spent[1..], implied)
  }

  lemma FoundReservation(spent: seq<(Txid, int)>, implied: int)
    ensures FindReservation(spent, implied).Some? ==> (FindReservation(spent, implied).value, implied) in spent
  {
  }

  /** Burn the matching reservation, assign the next sequence number and store the initial data. */
  function Register(t: Tables, id: BitAssetId, spent: seq<(Txid, int)>, implied: int,
                    d: PlainData, supply: nat, txid: Txid, height: nat): Result<Tables, Error>
  {
    var burned := FindReservation(spent, implied);
    if burned.None? then Err(NoReservationForRegistration)
    else if burned.value !in t.reservations then Err(MissingReservation)
    else if NextSeq(t) >= U32_LIMIT then Err(Panic)
    else
      Ok(Tables(t.toSeq[id := NextSeq(t)], t.data[id := InitData(d, supply, txid, height)],
                t.reservations - {burned.value}, t.toAsset[NextSeq(t) := id]))
  }

  function RevertRegister(t: Tables, id: BitAssetId, spent: seq<(Txid, int)>, implied: int): Result<Tables, Error> {
    var burned := FindReservation(spent, implied);
    if id !in t.toSeq || t.toSeq[id] !in t.toAsset || id !in t.data then Err(Missing)
    else if burned.None? then Err(Panic)
    else Ok(Tables(t.toSeq - {id}, t.data - {id}, t.reservations[burned.value := implied], t.toAsset - {t.toSeq[id]}))
  }

  function Mint(t: Tables, id: BitAssetId, amount: nat, txid: Txid, height: nat): Result<Tables, Error> {
    if id !in t.data then Err(Missing)
    else
      var d := t.data[id];
      if d.Supply() + amount >= U64_LIMIT then Err(TotalSupplyOverflow)
      else Ok(t.(data := t.data[id := d.(totalSupply := d.totalSupply.Push(d.Supply() + amount, txid, height))]))
  }

  function RevertMint(t: Tables, id: BitAssetId, amount: nat): Result<Tables, Error> {
    if id !in t.data then Err(Missing)
    else
      var d := t.data[id];
      var popped := d.totalSupply.Pop().0;
      if d.Supply() < amount then Err(TotalSupplyUnderflow)
      else if popped.Latest().data != d.Supply() - amount then Err(Panic)
      else Ok(t.(data := t.data[id := d.(totalSupply := popped)]))
  }

  function UpdateData(t: Tables, id: BitAssetId, u: Updates, txid: Txid, height: nat): Result<Tables, Error> {
    if id !in t.data then Err(Missing)
    else Ok(t.(data := t.data[id := t.data[id].ApplyUpdates(u, txid, height)]))
  }

  function RevertUpdate(t: Tables, id: BitAssetId, u: Updates, txid: Txid, height: nat): Result<Tables, Error> {
    if id !in t.data then Err(Missing)
    else StoreData(t, id, t.data[id].RevertUpdates(u, txid, height))
  }

  function StoreData(t: Tables, id: BitAssetId, d: Result<AssetData, Error>): Result<Tables, Error> {
    match d case Ok(v) => Ok(t.(data := t.data[id := v])) case Err(e) => Err(e)
  }

  // ---- round trips ----

  /** Sequence numbers are handed out from 0 without gaps and both tables agree. */
  ghost predicate Bijection(t: Tables) {
    t.data.Keys == t.toSeq.Keys && Numbering(t.toSeq, t.toAsset)
  }

  ghost predicate Numbering(toSeq: map<BitAssetId, nat>, toAsset: map<nat, BitAssetId>) {
    && (forall k: nat :: k in toAsset <==> 0 <= k < |toSeq|)
    && (forall k {:trigger NumberNamesAsset(toSeq, toAsset, k)} | k in toAsset :: NumberNamesAsset(toSeq, toAsset, k))
    && (forall id {:trigger AssetHasNumber(toSeq, toAsset, id)} | id in toSeq :: AssetHasNumber(toSeq, toAsset, id))
  }

  ghost predicate NumberNamesAsset(toSeq: map<BitAssetId, nat>, toAsset: map<nat, BitAssetId>, k: nat) {
    k in toAsset && toAsset[k] in toSeq && toSeq[toAsset[k]] == k
  }

  ghost predicate AssetHasNumber(toSeq: map<BitAssetId, nat>, toAsset: map<nat, BitAssetId>, id: BitAssetId) {
    id in toSeq && toSeq[id] in toAsset && toAsset[toSeq[id]] == id
  }

  lemma NumberingNewAsset(toSeq: map<BitAssetId, nat>, toAsset: map<nat, BitAssetId>, id: BitAssetId)
    requires Numbering(toSeq, toAsset) && id !in toSeq
    ensures Numbering(toSeq[id := |toSeq|], toAsset[|toSeq| := id])
  {
    var n := |toSeq|;
    var s, a := toSeq[id := n], toAsset[n := id];
    assert s.Keys == toSeq.Keys + {id};
    assert |s| == |s.Keys| == n + 1;
    forall k | k in a
      ensures NumberNamesAsset(s, a, k)
    {
      assert k in toAsset ==> NumberNamesAsset(toSeq, toAsset, k);
    }
    forall x | x in s
      ensures AssetHasNumber(s, a, x)
    {
      assert x in toSeq ==> AssetHasNumber(toSeq, toAsset, x);
    }
  }

  /** Numbering an asset keeps the numbering exactly when asset and number are both new, or belong together already. */
  lemma NumberingExtends(toSeq: map<BitAssetId, nat>, toAsset: map<nat, BitAssetId>, id: BitAssetId, q: nat)
    requires Numbering(toSeq, toAsset) && q <= |toSeq|
    ensures Numbering(toSeq[id := q], toAsset[q := id]) <==>
            if id in toSeq then toSeq[id] == q else q == |toSeq|
  {
    var s, a := toSeq[id := q], toAsset[q := id];
    if id in toSeq {
      assert AssetHasNumber(toSeq, toAsset, id);
      assert s.Keys == toSeq.Keys && |s| == |s.Keys| == |toSeq|;
      if toSeq[id] == q {
        assert s == toSeq && a == toAsset;
      } else {
        assert toSeq[id] in a && a[toSeq[id]] == id && s[id] == q;
        assert !NumberNamesAsset(s, a, toSeq[id]);
      }
    } else {
      assert s.Keys == toSeq.Keys + {id} && |s| == |s.Keys| == |toSeq| + 1;
      if q == |toSeq| {
        NumberingNewAsset(toSeq, toAsset, id);
      } else {
        assert |toSeq| !in a;
      }
    }
  }

  /** The next sequence number is the number of assets exactly for the counts that fit; otherwise it is taken. */
  lemma NextSeqIsCount(t: Tables)
    requires Bijection(t)
    ensures NextSeq(t) <= |t.toSeq|
    ensures NextSeq(t) == |t.toSeq| <==> CountFits(|t.toSeq|)
    ensures NextSeq(t) !in t.toAsset <==> CountFits(|t.toSeq|)
  {
    var n := |t.toSeq|;
    if n == 0 {
      assert t.toAsset == map[];
    } else {
      assert n - 1 in t.toAsset;
      var k := LastSeq(t).value;
      NumberOrder(k, n - 1);
      if k == n - 1 {
        assert forall j: nat | j < n :: j in t.toAsset.Keys;
        assert LastBelow(n - 1, n);
      }
    }
  }

  lemma SmallCountFits(n: nat)
    ensures n <= 256 ==> CountFits(n)
    ensures 257 <= n < 512 ==> !CountFits(n)
  {
    CountFitsExactly(n);
  }

  /** With 257 assets the key of 255 is the last one, so the next number, 256, is taken. */
  lemma NumberTakenAt257(t: Tables)
    requires Bijection(t) && |t.toSeq| == 257
    ensures NextSeq(t) == 256 && 256 in t.toAsset
  {
    NextSeqIsCount(t);
    var k := LastSeq(t).value;
    assert 255 in t.toAsset.Keys && k in t.toAsset;
    LowestByteFirst(k, 255);
  }

  /**
   A registration of a new asset keeps the numbering a bijection exactly when the
   count fits; one of a registered asset, exactly when it gets its old number.
   */
  lemma RegisterKeepsBijection(t: Tables, id: BitAssetId, spent: seq<(Txid, int)>, implied: int,
                               d: PlainData, supply: nat, txid: Txid, height: nat)
    requires Bijection(t) && Register(t, id, spent, implied, d, supply, txid, height).Ok?
    ensures Bijection(Register(t, id, spent, implied, d, supply, txid, height).value) <==>
            if id in t.toSeq then t.toSeq[id] == NextSeq(t) else CountFits(|t.toSeq|)
  {
    NextSeqIsCount(t);
    NumberingExtends(t.toSeq, t.toAsset, id, NextSeq(t));
  }

  /** A registration adds a row to each number table unless the row is there already. */
  lemma RegisterSizes(t: Tables, id: BitAssetId, spent: seq<(Txid, int)>, implied: int,
                      d: PlainData, supply: nat, txid: Txid, height: nat)
    requires Register(t, id, spent, implied, d, supply, txid, height).Ok?
    ensures var e := Register(t, id, spent, implied, d, supply, txid, height).value;
            && |e.toSeq| == |t.toSeq| + (if id in t.toSeq then 0 else 1)
            && |e.toAsset| == |t.toAsset| + (if NextSeq(t) in t.toAsset then 0 else 1)
  {
    MapGrows(t.toSeq, id, NextSeq(t));
    MapGrows(t.toAsset, NextSeq(t), id);
  }

  lemma MapGrows<K, V>(m: map<K, V>, k: K, v: V)
    ensures |m[k := v]| == |m| + (if k in m then 0 else 1)
  {
    assert m[k := v].Keys == m.Keys + {k};
    assert |m[k := v]| == |m[k := v].Keys|;
  }

  lemma MapShrinks<K, V>(m: map<K, V>, k: K)
    requires k in m
    ensures |m - {k}| == |m| - 1
  {
    assert (m - {k}).Keys == m.Keys - {k};
    assert |m - {k}| == |(m - {k}).Keys|;
  }

  /** A reverted registration always removes one row from each number table. */
  lemma RevertRegisterSizes(t: Tables, id: BitAssetId, spent: seq<(Txid, int)>, implied: int)
    requires RevertRegister(t, id, spent, implied).Ok?
    ensures var e := RevertRegister(t, id, spent, implied).value;
            |e.toSeq| == |t.toSeq| - 1 && |e.toAsset| == |t.toAsset| - 1
  {
    MapShrinks(t.toSeq, id);
    MapShrinks(t.toAsset, t.toSeq[id]);
  }

  /** A numbering has as many numbers as assets. */
  lemma NumberingSizes(t: Tables)
    requires Bijection(t)
    ensures |t.toAsset| == |t.toSeq|
  {
    var n := |t.toSeq|;
    assert t.toAsset.Keys == Below(n);
    assert |t.toAsset| == |t.toAsset.Keys|;
  }

  function Below(n: nat): (r: set<nat>)
    ensures forall k: nat :: k in r <==> k < n
    ensures |r| == n
  {
    if n == 0 then {} else Below(n - 1) + {n - 1}
  }

  // ---- several registrations ----

  /** Registrations, in order. */
  datatype Registrations = Nothing | Then(before: Registrations, id: BitAssetId) {
    function Count(): nat {
      match this case Nothing => 0 case Then(before, _) => before.Count() + 1
    }

    predicate Has(x: BitAssetId) {
      match this case Nothing => false case Then(before, id) => x == id || before.Has(x)
    }

    predicate Distinct() {
      match this case Nothing => true case Then(before, id) => before.Distinct() && !before.Has(id)
    }

    function Plus(more: Registrations): Registrations {
      match more case Nothing => this case Then(before, id) => Then(Plus(before), id)
    }

    lemma PlusOne(x: BitAssetId)
      ensures Plus(Then(Nothing, x)) == Then(this, x)
    {
      assert Plus(Nothing) == this;
    }

    lemma {:induction false} PlusCount(more: Registrations)
      ensures Plus(more).Count() == Count() + more.Count()
    {
      if more.Then? {
        PlusCount(more.before);
      }
    }

    lemma {:induction false} PlusHas(more: Registrations, x: BitAssetId)
      ensures Plus(more).Has(x) <==> Has(x) || more.Has(x)
    {
      if more.Then? {
        PlusHas(more.before, x);
      }
    }

    lemma {:induction false} PlusAssociates(b: Registrations, c: Registrations)
      ensures Plus(b).Plus(c) == Plus(b.Plus(c))
    {
      if c.Then? {
        PlusAssociates(b, c.before);
      }
    }

    lemma {:induction false} NothingPlus()
      ensures Nothing.Plus(this) == this
    {
      if Then? {
        before.NothingPlus();
      }
    }
  }

  /** Each asset is new, also among those before it, and registered at a count at which the next number is free. */
  predicate RegistrationsFit(t: Tables, r: Registrations) {
    match r
    case Nothing => true
    case Then(before, id) =>
      RegistrationsFit(t, before) && id !in t.toSeq && !before.Has(id) && CountFits(|t.toSeq| + before.Count())
  }

  ghost predicate AllNew(t: Tables, r: Registrations) {
    forall id | r.Has(id) :: id !in t.toSeq
  }

  /** That is: the assets are distinct, none is registered before, and every count on the way fits. */
  lemma {:induction false} RegistrationsFitMeans(t: Tables, r: Registrations)
    ensures RegistrationsFit(t, r) <==> r.Distinct() && AllNew(t, r) && CountsFit(|t.toSeq|, r.Count())
  {
    if r.Then? {
      RegistrationsFitMeans(t, r.before);
      assert r.Has(r.id);
      assert forall id | r.before.Has(id) :: r.Has(id);
    }
  }

  /** What holds of the tables `e` that some registrations made of `t`, whether they went well or not. */
  ghost predicate Grown(t: Tables, e: Tables, r: Registrations) {
    && |e.toSeq| <= |t.toSeq| + r.Count() && |e.toAsset| <= |t.toAsset| + r.Count()
    && (|e.toSeq| == |t.toSeq| + r.Count() && |e.toAsset| == |t.toAsset| + r.Count() ==> RegistrationsFit(t, r))
    && (RegistrationsFit(t, r) ==> GrownWell(t, e, r))
  }

  ghost predicate GrownWell(t: Tables, e: Tables, r: Registrations) {
    && Bijection(e) && |e.toSeq| == |t.toSeq| + r.Count()
    && forall id {:trigger RowAdded(t, e, r, id)} :: RowAdded(t, e, r, id)
  }

  ghost predicate RowAdded(t: Tables, e: Tables, r: Registrations, id: BitAssetId) {
    id in e.toSeq <==> id in t.toSeq || r.Has(id)
  }

  /** A registration that fits is of a new asset at a free number. */
  lemma NextFits(t: Tables, d: Tables, r: Registrations, id: BitAssetId)
    requires GrownWell(t, d, r) && RegistrationsFit(t, Then(r, id))
    ensures id !in d.toSeq && NextSeq(d) !in d.toAsset
  {
    assert RowAdded(t, d, r, id);
    NextSeqIsCount(d);
  }

  /** Registrations that fit together fit one part after the other. */
  lemma {:induction false} FitInParts(t: Tables, d: Tables, r: Registrations, more: Registrations)
    requires RegistrationsFit(t, r.Plus(more))
    ensures RegistrationsFit(t, r)
    ensures GrownWell(t, d, r) ==> RegistrationsFit(d, more)
    decreases more
  {
    if more.Then? {
      FitInParts(t, d, r, more.before);
      r.PlusCount(more.before);
      r.PlusHas(more.before, more.id);
      assert GrownWell(t, d, r) ==> RowAdded(t, d, r, more.id);
    }
  }

  lemma NothingGrown(t: Tables)
    requires Bijection(t)
    ensures Grown(t, t, Nothing)
  {
    assert forall id :: RowAdded(t, t, Nothing, id);
  }

  lemma GrownOther(t: Tables, d: Tables, e: Tables, r: Registrations)
    requires Grown(t, d, r) && e.toSeq == d.toSeq && e.toAsset == d.toAsset && e.data.Keys == d.data.Keys
    ensures Grown(t, e, r)
  {
    if RegistrationsFit(t, r) {
      forall id
        ensures RowAdded(t, e, r, id)
      {
        assert RowAdded(t, d, r, id);
      }
    }
  }

  lemma GrownWellStep(t: Tables, d: Tables, e: Tables, r: Registrations, id: BitAssetId)
    requires GrownWell(t, d, r) && Bijection(e) && |e.toSeq| == |d.toSeq| + 1 && e.toSeq.Keys == d.toSeq.Keys + {id}
    ensures GrownWell(t, e, Then(r, id))
  {
    forall x
      ensures RowAdded(t, e, Then(r, id), x)
    {
      assert RowAdded(t, d, r, x);
      assert x in e.toSeq.Keys <==> x in d.toSeq.Keys || x == id;
    }
  }

  /** Rows that a registration of an old asset, or at a taken number, fails to add are missing for good. */
  lemma GrownByRegistration(t: Tables, d: Tables, e: Tables, r: Registrations, id: BitAssetId)
    requires Grown(t, d, r)
    requires |e.toSeq| == |d.toSeq| + (if id in d.toSeq then 0 else 1)
    requires |e.toAsset| == |d.toAsset| + (if NextSeq(d) in d.toAsset then 0 else 1)
    requires GrownWell(t, d, r) && id !in d.toSeq && CountFits(|d.toSeq|) ==> GrownWell(t, e, Then(r, id))
    ensures Grown(t, e, Then(r, id))
  {
    if RegistrationsFit(t, r) {
      NextSeqIsCount(d);
      assert RowAdded(t, d, r, id);
    }
  }

  lemma RegisterGrowsWell(t: Tables, d: Tables, r: Registrations, id: BitAssetId, spent: seq<(Txid, int)>, implied: int,
                          data: PlainData, supply: nat, txid: Txid, height: nat)
    requires GrownWell(t, d, r) && id !in d.toSeq && CountFits(|d.toSeq|)
    requires Register(d, id, spent, implied, data, supply, txid, height).Ok?
    ensures GrownWell(t, Register(d, id, spent, implied, data, supply, txid, height).value, Then(r, id))
  {
    RegisterSizes(d, id, spent, implied, data, supply, txid, height);
    RegisterKeepsBijection(d, id, spent, implied, data, supply, txid, height);
    GrownWellStep(t, d, Register(d, id, spent, implied, data, supply, txid, height).value, r, id);
  }

  lemma RegisterGrows(t: Tables, d: Tables, r: Registrations, id: BitAssetId, spent: seq<(Txid, int)>, implied: int,
                      data: PlainData, supply: nat, txid: Txid, height: nat)
    requires Grown(t, d, r) && Register(d, id, spent, implied, data, supply, txid, height).Ok?
    ensures Grown(t, Register(d, id, spent, implied, data, supply, txid, height).value, Then(r, id))
  {
    RegisterSizes(d, id, spent, implied, data, supply, txid, height);
    if GrownWell(t, d, r) && id !in d.toSeq && CountFits(|d.toSeq|) {
      RegisterGrowsWell(t, d, r, id, spent, implied, data, supply, txid, height);
    }
    GrownByRegistration(t, d, Register(d, id, spent, implied, data, supply, txid, height).value, r, id);
  }

  /** The reservation that a registration burns is restored by its revert. */
  lemma BurnedRestored(t: Tables, spent: seq<(Txid, int)>, implied: int)
    requires forall r | r in spent && r.0 in t.reservations :: t.reservations[r.0] == r.1
    requires FindReservation(spent, implied).Some? && FindReservation(spent, implied).value in t.reservations
    ensures var b := FindReservation(spent, implied).value;
            (t.reservations - {b})[b := implied] == t.reservations
  {
    FoundReservation(spent, implied);
  }

  /**
   Reverting a registration restores all four tables exactly when asset and
   number were new, given that the burned reservation matched.
   */
  lemma RevertRegisterUndoes(t: Tables, id: BitAssetId, spent: seq<(Txid, int)>, implied: int,
                             d: PlainData, supply: nat, txid: Txid, height: nat)
    requires t.data.Keys == t.toSeq.Keys
    requires forall r | r in spent && r.0 in t.reservations :: t.reservations[r.0] == r.1
    requires Register(t, id, spent, implied, d, supply, txid, height).Ok?
    ensures RevertRegister(Register(t, id, spent, implied, d, supply, txid, height).value, id, spent, implied) ==
            Ok(t) <==>
            id !in t.toSeq && NextSeq(t) !in t.toAsset
  {
    var e := Register(t, id, spent, implied, d, supply, txid, height).value;
    var back := RevertRegister(e, id, spent, implied).value;
    BurnedRestored(t, spent, implied);
    if id in t.toSeq {
      assert id !in back.toSeq;
    } else if NextSeq(t) in t.toAsset {
      assert NextSeq(t) !in back.toAsset;
    } else {
      assert back.toSeq == t.toSeq && back.data == t.data && back.toAsset == t.toAsset;
    }
  }

  lemma RevertMintUndoes(t: Tables, id: BitAssetId, amount: nat, txid: Txid, height: nat)
    requires Mint(t, id, amount, txid, height).Ok?
    ensures RevertMint(Mint(t, id, amount, txid, height).value, id, amount) == Ok(t)
  {
    var d := t.data[id];
    d.totalSupply.PopUndoesPush(d.Supply() + amount, txid, height);
    assert t.data[id := d] == t.data;
    var e := Mint(t, id, amount, txid, height).value;
    assert e.data[id := d] == t.data;
  }

  lemma WriteBack<K, V>(m: map<K, V>, k: K, v: V)
    requires k in m
    ensures m[k := v][k := m[k]] == m
  {
  }

  lemma RevertStored(t: Tables, id: BitAssetId, d: AssetData, u: Updates, txid: Txid, height: nat)
    requires id in t.data && d.RevertUpdates(u, txid, height) == Ok(t.data[id])
    ensures RevertUpdate(t.(data := t.data[id := d]), id, u, txid, height) == Ok(t)
  {
    WriteBack(t.data, id, d);
  }

  lemma RevertUpdateUndoes(t: Tables, id: BitAssetId, u: Updates, txid: Txid, height: nat)
    requires UpdateData(t, id, u, txid, height).Ok?
    ensures RevertUpdate(UpdateData(t, id, u, txid, height).value, id, u, txid, height) == Ok(t)
  {
    UpdatesRoundTrip(t.data[id], u, txid, height);
    RevertStored(t, id, t.data[id].ApplyUpdates(u, txid, height), u, txid, height);
  }

  lemma DeleteReservationUndoes(t: Tables, txid: Txid, commitment: int)
    requires txid !in t.reservations
    ensures DeleteReservation(PutReservation(t, txid, commitment), txid) == Ok(t)
  {
    assert t.reservations[txid := commitment] - {txid} == t.reservations;
  }
}
