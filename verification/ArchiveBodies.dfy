/** The index from transactions to the blocks whose stored bodies include them. */
module ArchiveBodies {
  import opened Wrappers
  import opened ChainTypes
  import opened ArchiveDb

  type Inclusions = map<Txid, map<BlockHash, nat>>

  /** Entries of other blocks, and of transactions outside `txs`, are the same in both indexes. */
  ghost predicate SameElsewhere(a: Inclusions, b: Inclusions, block: BlockHash, txs: seq<Txid>) {
    forall t, c {:trigger SameEntry(a, b, t, c)} | c != block || t !in txs :: SameEntry(a, b, t, c)
  }

  ghost predicate SameEntry(a: Inclusions, b: Inclusions, t: Txid, c: BlockHash) {
    (Included(a, t, c) <==> Included(b, t, c)) && (Included(a, t, c) ==> a[t][c] == b[t][c])
  }

  ghost predicate NoEmptyRows(a: Inclusions) {
    forall t | t in a :: a[t] != map[]
  }

  lemma LastIndexSnoc(done: seq<Txid>, t: Txid, u: Txid)
    ensures LastIndex(done + [t], u) == if u == t then |done| else LastIndex(done, u)
  {
    assert (done + [t])[..|done|] == done;
  }

  /** `r` with transaction `t` recorded for `block` at position `i`. */
  function With(r: Inclusions, block: BlockHash, t: Txid, i: nat): Inclusions {
    r[t := (if t in r then r[t] else map[])[block := i]]
  }

  lemma WithOne(r: Inclusions, block: BlockHash, t: Txid, i: nat, u: Txid, c: BlockHash)
    ensures var s := With(r, block, t, i);
            && (u != t || c != block ==> SameEntry(r, s, u, c))
            && Included(s, t, block) && s[t][block] == i
  {
  }

  lemma AddOne(a: Inclusions, r: Inclusions, block: BlockHash, done: seq<Txid>, t: Txid)
    requires NoEmptyRows(r) && SameElsewhere(a, r, block, done)
    requires forall u | u in done :: Included(r, u, block) && r[u][block] == LastIndex(done, u)
    ensures var s := With(r, block, t, |done|);
            && NoEmptyRows(s) && SameElsewhere(a, s, block, done + [t])
            && forall u | u in done + [t] :: Included(s, u, block) && s[u][block] == LastIndex(done + [t], u)
  {
    var s := With(r, block, t, |done|);
    assert block in s[t];
    forall u, c | c != block || u !in done + [t]
      ensures SameEntry(a, s, u, c)
    {
      WithOne(r, block, t, |done|, u, c);
      assert SameEntry(a, r, u, c);
    }
    forall u | u in done + [t]
      ensures Included(s, u, block) && s[u][block] == LastIndex(done + [t], u)
    {
      WithOne(r, block, t, |done|, u, block);
      LastIndexSnoc(done, t, u);
    }
  }

  /** Record every transaction of `txs` at its position; a repeated transaction keeps its last position. */
  method AddInclusions(inclusions: Inclusions, block: BlockHash, txs: seq<Txid>) returns (r: Inclusions)
    requires NoEmptyRows(inclusions)
    ensures NoEmptyRows(r) && SameElsewhere(inclusions, r, block, txs)
    ensures forall t | t in txs :: Included(r, t, block) && r[t][block] == LastIndex(txs, t)
  {
    r := inclusions;
    for i := 0 to |txs|
      invariant NoEmptyRows(r) && SameElsewhere(inclusions, r, block, txs[..i])
      invariant forall t | t in txs[..i] :: Included(r, t, block) && r[t][block] == LastIndex(txs[..i], t)
    {
      AddOne(inclusions, r, block, txs[..i], txs[i]);
      r := With(r, block, txs[i], i);
      assert txs[..i + 1] == txs[..i] + [txs[i]];
    }
    assert txs[..|txs|] == txs;
  }

  /** Entries of `r` without the entry of `t` at `block`; an empty row disappears. */
  function Without(r: Inclusions, block: BlockHash, t: Txid): Inclusions {
    var row := (if t in r then r[t] else map[]) - {block};
    if row == map[] then r - {t} else r[t := row]
  }

  lemma RemoveOne(a: Inclusions, r: Inclusions, block: BlockHash, done: seq<Txid>, t: Txid)
    requires NoEmptyRows(r) && SameElsewhere(a, r, block, done)
    requires forall u | u in done :: !Included(r, u, block)
    ensures var s := Without(r, block, t);
            && NoEmptyRows(s) && SameElsewhere(a, s, block, done + [t])
            && forall u | u in done + [t] :: !Included(s, u, block)
  {
    var s := Without(r, block, t);
    var row := (if t in r then r[t] else map[]) - {block};
    assert forall c | c != block :: c in row <==> Included(r, t, c);
    forall u, c | c != block || u !in done + [t]
      ensures SameEntry(a, s, u, c)
    {
      assert SameEntry(a, r, u, c);
    }
  }

  /** Forget `block` in the row of every transaction of `txs`; rows that become empty disappear. */
  method RemoveInclusions(inclusions: Inclusions, block: BlockHash, txs: seq<Txid>) returns (r: Inclusions)
    requires NoEmptyRows(inclusions)
    ensures NoEmptyRows(r) && SameElsewhere(inclusions, r, block, txs)
    ensures forall t | t in txs :: !Included(r, t, block)
  {
    r := inclusions;
    for i := 0 to |txs|
      invariant NoEmptyRows(r) && SameElsewhere(inclusions, r, block, txs[..i])
      invariant forall t | t in txs[..i] :: !Included(r, t, block)
    {
      RemoveOne(inclusions, r, block, txs[..i], txs[i]);
      r := Without(r, block, txs[i]);
      assert txs[..i + 1] == txs[..i] + [txs[i]];
    }
    assert txs[..|txs|] == txs;
  }

  lemma AddedExact(bodies: map<BlockHash, seq<Txid>>, a: Inclusions, b: Inclusions, block: BlockHash, txs: seq<Txid>)
    requires InclusionsExact(bodies, a) && (block in bodies ==> bodies[block] == txs)
    requires NoEmptyRows(b) && SameElsewhere(a, b, block, txs)
    requires forall t | t in txs :: Included(b, t, block) && b[t][block] == LastIndex(txs, t)
    ensures InclusionsExact(bodies[block := txs], b)
  {
    forall t, c
      ensures Included(b, t, c) <==> c in bodies[block := txs] && t in bodies[block := txs][c]
      ensures Included(b, t, c) ==> b[t][c] == LastIndex(bodies[block := txs][c], t)
    {
      assert Included(a, t, c) <==> c in bodies && t in bodies[c];
      assert c != block || t !in txs ==> SameEntry(a, b, t, c);
    }
  }

  lemma RemovedExact(bodies: map<BlockHash, seq<Txid>>, a: Inclusions, b: Inclusions, block: BlockHash, txs: seq<Txid>)
    requires InclusionsExact(bodies, a) && (block in bodies ==> bodies[block] == txs)
    requires NoEmptyRows(b) && SameElsewhere(a, b, block, txs)
    requires forall t | t in txs :: !Included(b, t, block)
    ensures InclusionsExact(bodies - {block}, b)
  {
    forall t, c
      ensures Included(b, t, c) <==> c in bodies - {block} && t in (bodies - {block})[c]
      ensures Included(b, t, c) ==> b[t][c] == LastIndex((bodies - {block})[c], t)
    {
      assert Included(a, t, c) <==> c in bodies && t in bodies[c];
      assert c != block || t !in txs ==> SameEntry(a, b, t, c);
    }
  }

  /** The stored bodies determine the index. */
  lemma InclusionsDetermined(bodies: map<BlockHash, seq<Txid>>, a: Inclusions, b: Inclusions)
    requires InclusionsExact(bodies, a) && InclusionsExact(bodies, b)
    ensures a == b
  {
    forall t
      ensures t in a <==> t in b
      ensures t in a ==> a[t] == b[t]
    {
      assert forall c :: Included(a, t, c) <==> Included(b, t, c);
      assert forall c | Included(a, t, c) :: a[t][c] == b[t][c];
      if t in a && t !in b {
        var c :| c in a[t];
        assert Included(a, t, c);
      }
      if t in b && t !in a {
        var c :| c in b[t];
        assert Included(b, t, c);
      }
      if t in a && t in b {
        assert forall c :: c in a[t] <==> Included(a, t, c);
        assert forall c :: c in b[t] <==> Included(b, t, c);
        assert a[t].Keys == b[t].Keys;
      }
    }
  }
}
