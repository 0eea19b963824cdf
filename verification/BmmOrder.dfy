/**
 Runs of arrivals. Whatever order sidechain headers, mainchain headers and
 mainchain block infos arrive in, the verified commitments are the same.
 */
module BmmOrder {
  import opened Wrappers
  import opened ChainTypes
  import opened HeaderTree
  import opened ArchiveDb
  import opened ArchiveSteps

  datatype Arrival =
    | SideArrival(header: Header)
    | MainArrival(info: MainHeader)
    | InfoArrival(main: MainHash, commitment: Option<BlockHash>)

  /** The effect of one accepted arrival: the contracts of the three archive operations. */
  ghost predicate Step(db: Db, a: Arrival, e: Db) {
    && db.Valid() && e.Valid()
    && match a
       case SideArrival(h) => CanPutHeader(db, h) && AcceptsHeader(db.chains, h) && HeaderStored(db, h, e)
       case MainArrival(i) =>
         CanPutMainHeader(db.chains.main, i) && AcceptsMainHeader(db.chains.main, i) && MainHeaderStored(db, i, e)
       case InfoArrival(m, c) => CanPutInfo(db.chains, m, c) && AcceptsInfo(db.chains, m) && e == WithInfo(db, m, c)
  }

  /** A run from the empty archive, latest arrival outermost. */
  datatype History = Start | Then(before: History, arrival: Arrival, after: Db) {
    ghost function Final(): Db {
      match this case Start => EMPTY case Then(_, _, e) => e
    }

    /** Every arrival was accepted and had its specified effect. */
    ghost predicate Legal() {
      match this case Start => true case Then(p, a, e) => p.Legal() && Step(p.Final(), a, e)
    }

    ghost function Arrivals(): set<Arrival> {
      match this case Start => {} case Then(p, a, _) => p.Arrivals() + {a}
    }
  }

  /** The tables hold exactly what arrived. */
  ghost predicate Holds(c: Chains, arrived: set<Arrival>) {
    && (forall h :: SideArrival(h) in arrived <==> h.hash in c.side.headers && c.side.headers[h.hash] == h)
    && (forall i :: MainArrival(i) in arrived <==> i.hash in c.main.headers && c.main.headers[i.hash] == i)
    && (forall m, b :: InfoArrival(m, b) in arrived <==> m in c.infos && c.infos[m] == b)
  }

  /** One arrival adds one row to one of the three tables. */
  ghost predicate AddsRow(c: Chains, a: Arrival, d: Chains) {
    match a
    case SideArrival(h) =>
      && (h.hash in c.side.headers ==> c.side.headers[h.hash] == h)
      && d.side.headers == c.side.headers[h.hash := h] && d.main.headers == c.main.headers && d.infos == c.infos
    case MainArrival(i) =>
      && (i.hash in c.main.headers ==> c.main.headers[i.hash] == i)
      && d.main.headers == c.main.headers[i.hash := i] && d.side.headers == c.side.headers && d.infos == c.infos
    case InfoArrival(m, b) =>
      && (m in c.infos ==> c.infos[m] == b)
      && d.infos == c.infos[m := b] && d.side.headers == c.side.headers && d.main.headers == c.main.headers
  }

  lemma StepAddsRow(db: Db, a: Arrival, e: Db)
    requires Step(db, a, e)
    ensures AddsRow(db.chains, a, e.chains) && e.invalid == db.invalid
  {
  }

  lemma HoldsAfter(c: Chains, a: Arrival, d: Chains, arrived: set<Arrival>)
    requires Holds(c, arrived) && AddsRow(c, a, d)
    ensures Holds(d, arrived + {a})
  {
  }

  /** Every reached archive is valid, holds exactly what arrived, and has invalidated nothing. */
  lemma {:induction false} LegalHolds(r: History)
    requires r.Legal()
    ensures r.Final().Valid() && r.Final().invalid == {} && Holds(r.Final().chains, r.Arrivals())
  {
    match r
    case Start =>
      EmptyValid();
    case Then(p, a, e) =>
      LegalHolds(p);
      StepAddsRow(p.Final(), a, e);
      HoldsAfter(p.Final().chains, a, e.chains, p.Arrivals());
  }

  /** Tables holding the same arrivals agree. */
  lemma HoldsExtends(c: Chains, d: Chains, arrived: set<Arrival>)
    requires Holds(c, arrived) && Holds(d, arrived)
    requires forall b | b in c.side.headers :: c.side.headers[b].hash == b
    requires forall m | m in c.main.headers :: c.main.headers[m].hash == m
    ensures Extends(c, d)
  {
    forall b | b in c.side.headers
      ensures b in d.side.headers && d.side.headers[b] == c.side.headers[b]
    {
      assert SideArrival(c.side.headers[b]) in arrived;
    }
    forall m | m in c.main.headers
      ensures m in d.main.headers && d.main.headers[m] == c.main.headers[m]
    {
      assert MainArrival(c.main.headers[m]) in arrived;
    }
    forall m | m in c.infos
      ensures m in d.infos && d.infos[m] == c.infos[m]
    {
      assert InfoArrival(m, c.infos[m]) in arrived;
    }
  }

  lemma SameChainsSameVerdicts(d: Db, e: Db, b: BlockHash, m: MainHash)
    requires d.Valid() && e.Valid() && Extends(d.chains, e.chains) && Extends(e.chains, d.chains)
    requires d.invalid == {} && e.invalid == {}
    ensures IsVerified(d.bmm, b, m) <==> IsVerified(e.bmm, b, m)
  {
    if b in d.chains.side.headers {
      assert VerdictAgrees(d.chains, d.bmm, b, m) && VerdictAgrees(e.chains, e.bmm, b, m);
      if m in d.chains.infos {
        VerifiesStable(d.chains, e.chains, b, m);
      }
    }
  }

  /** Two runs that deliver the same headers and infos, in any order, verify the same commitments. */
  lemma OrderIrrelevant(r: History, s: History, b: BlockHash, m: MainHash)
    requires r.Legal() && s.Legal() && r.Arrivals() == s.Arrivals()
    ensures IsVerified(r.Final().bmm, b, m) <==> IsVerified(s.Final().bmm, b, m)
  {
    LegalHolds(r);
    LegalHolds(s);
    HoldsExtends(r.Final().chains, s.Final().chains, r.Arrivals());
    HoldsExtends(s.Final().chains, r.Final().chains, r.Arrivals());
    SameChainsSameVerdicts(r.Final(), s.Final(), b, m);
  }

  /**
   In every valid archive the stored verdict is `Verified` exactly when `m`
   commits to `b`, `m` follows `prev_main_hash` of `b`, and `b` has no parent or
   its parent is stored as verified at an ancestor of `m`.
   */
  lemma VerifiedExactly(db: Db, b: BlockHash, m: MainHash)
    requires db.Valid() && b in db.chains.side.headers
    ensures var h := db.chains.side.headers[b];
            IsVerified(db.bmm, b, m) <==>
            && m in db.chains.infos && db.chains.infos[m] == Some(b)
            && m in db.chains.main.headers && db.chains.main.headers[m].prev == h.prevMain
            && (h.prevSide.Some? ==>
                  exists a :: db.chains.main.Tree().IsAncestor(a, m) && IsVerified(db.bmm, h.prevSide.value, a))
  {
    var h := db.chains.side.headers[b];
    assert VerdictAgrees(db.chains, db.bmm, b, m);
    assert db.chains.side.Tree().Linked(b);
    if h.prevSide.Some? {
      var p := h.prevSide.value;
      forall a: MainHash
        ensures IsVerified(db.bmm, p, a) <==> db.chains.Verifies(p, a)
      {
        assert VerdictAgrees(db.chains, db.bmm, p, a);
      }
      if m in db.chains.main.headers {
        var t := db.chains.main.Tree();
        if a :| t.IsAncestor(a, m) && IsVerified(db.bmm, p, a) {
          assert db.chains.Verifies(p, a) && db.chains.CommittedBefore(p, m);
        }
        if db.chains.CommittedBefore(p, m) {
          var a :| a in db.chains.main.headers && t.IsAncestor(a, m) && db.chains.Verifies(p, a);
          assert IsVerified(db.bmm, p, a);
        }
      }
    }
  }
}
