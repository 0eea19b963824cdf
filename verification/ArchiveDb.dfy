/**
 The archive's databases as values, grouped by what keeps them consistent, and
 the recursive meaning of the blind-merged-mining verdicts.
 */
module ArchiveDb {
  import opened Wrappers
  import opened Arith
  import opened ChainTypes
  import opened HeaderTree

  datatype BmmResult = Verified | Failed

  // ---- sidechain headers ----

  /** `headers`, `block_hash_to_height`, `exponential_ancestors` and `successors`. */
  datatype SideTables = SideTables(
    headers: map<BlockHash, Header>,
    heights: map<BlockHash, nat>,
    exponential: map<BlockHash, seq<BlockHash>>,
    successors: map<Option<BlockHash>, set<BlockHash>>)
  {
    function Tree(): Tree<BlockHash> {
      HeaderTree.Tree.Tree(SideParents(headers), heights)
    }

    function Index(): Index<BlockHash> {
      HeaderTree.Index.Index(Tree(), exponential)
    }

    ghost predicate Valid() {
      && Index().Valid()
      && (forall b | b in headers :: headers[b].hash == b)
      && (forall b | b in heights :: heights[b] < U32_LIMIT)
      && SideRows(Tree().parent, successors)
    }

    /** Can `h` be stored: a new block or the same one again, under a stored parent. */
    ghost predicate Fits(h: Header) {
      && (h.hash in headers ==> headers[h.hash] == h)
      && (h.prevSide.Some? ==> h.prevSide.value in headers && h.prevSide.value in heights
                               && heights[h.prevSide.value] + 1 < U32_LIMIT)
      && h.prevSide in successors
    }

    function Put(h: Header, row: seq<BlockHash>): SideTables
      requires h.prevSide.Some? ==> h.prevSide.value in heights
      requires h.prevSide in successors
    {
      SideTables(headers[h.hash := h],
                 heights[h.hash := Tree().HeightFor(h.prevSide)],
                 exponential[h.hash := row],
                 AddSuccessor(successors, h.prevSide, h.hash, Some(h.hash)))
    }
  }

  function SideParents(headers: map<BlockHash, Header>): map<BlockHash, Option<BlockHash>> {
    map b | b in headers :: headers[b].prevSide
  }

  /** `successors` is the inverse of `prev_side_hash`, with a row for every known block and for "no block". */
  ghost predicate SideRows(parent: map<BlockHash, Option<BlockHash>>, succ: map<Option<BlockHash>, set<BlockHash>>) {
    && succ.Keys == {None} + (set b | b in parent :: Some(b))
    && forall k {:trigger SideRow(parent, succ, k)} | k in succ :: SideRow(parent, succ, k)
  }

  ghost predicate SideRow(parent: map<BlockHash, Option<BlockHash>>, succ: map<Option<BlockHash>, set<BlockHash>>,
                          k: Option<BlockHash>)
    requires k in succ
  {
    succ[k] == ChildrenOf(parent, k)
  }

  /** Record `child` under `pred` and make sure `key`, the child's own row, exists. */
  function AddSuccessor<K, V>(succ: map<K, set<V>>, pred: K, child: V, key: K): map<K, set<V>>
    requires pred in succ
  {
    var s := succ[pred := succ[pred] + {child}];
    s[key := if key in s then s[key] else {}]
  }

  // ---- mainchain headers ----

  /** The `main_*` databases and `total_work`. */
  datatype MainTables = MainTables(
    headers: map<MainHash, MainHeader>,
    heights: map<MainHash, nat>,
    exponential: map<MainHash, seq<MainHash>>,
    successors: map<MainHash, set<MainHash>>,
    totalWork: map<MainHash, nat>)
  {
    function Tree(): Tree<MainHash> {
      HeaderTree.Tree.Tree(MainParents(headers), heights)
    }

    function Index(): Index<MainHash> {
      HeaderTree.Index.Index(Tree(), exponential)
    }

    ghost predicate Valid() {
      && Index().Valid()
      && (forall m | m in headers :: headers[m].hash == m)
      && ZERO_HASH !in headers
      && (forall m | m in heights :: heights[m] < U32_LIMIT)
      && MainRows(Tree().parent, successors)
      && WorkExact(headers, totalWork)
    }

    ghost predicate Fits(i: MainHeader) {
      && i.hash != ZERO_HASH && (i.hash in headers ==> headers[i.hash] == i)
      && (i.prev == ZERO_HASH || (i.prev in headers && i.prev in heights && heights[i.prev] + 1 < U32_LIMIT
                                  && i.prev in totalWork))
      && i.prev in successors
    }

    function Put(i: MainHeader, row: seq<MainHash>): MainTables
      requires i.prev != ZERO_HASH ==> i.prev in heights && i.prev in totalWork
      requires i.prev in successors
    {
      MainTables(headers[i.hash := i],
                 heights[i.hash := Tree().HeightFor(MainParent(i.prev))],
                 exponential[i.hash := row],
                 AddSuccessor(successors, i.prev, i.hash, i.hash),
                 totalWork[i.hash := if i.prev != ZERO_HASH then totalWork[i.prev] + i.work else i.work])
    }
  }

  function MainParents(headers: map<MainHash, MainHeader>): map<MainHash, Option<MainHash>> {
    map m | m in headers :: MainParent(headers[m].prev)
  }

  function MainParent(prev: MainHash): Option<MainHash> {
    if prev == ZERO_HASH then None else Some(prev)
  }

  ghost predicate MainRows(parent: map<MainHash, Option<MainHash>>, succ: map<MainHash, set<MainHash>>) {
    && succ.Keys == {ZERO_HASH} + parent.Keys
    && forall m {:trigger MainRow(parent, succ, m)} | m in succ :: MainRow(parent, succ, m)
  }

  ghost predicate MainRow(parent: map<MainHash, Option<MainHash>>, succ: map<MainHash, set<MainHash>>, m: MainHash)
    requires m in succ
  {
    succ[m] == ChildrenOf(parent, MainParent(m))
  }

  /** Total work accumulates along the mainchain. */
  ghost predicate WorkExact(headers: map<MainHash, MainHeader>, work: map<MainHash, nat>) {
    && work.Keys == headers.Keys
    && forall m {:trigger WorkAdds(headers, work, m)} | m in headers :: WorkAdds(headers, work, m)
  }

  ghost predicate WorkAdds(headers: map<MainHash, MainHeader>, work: map<MainHash, nat>, m: MainHash)
    requires m in headers && m in work
  {
    work[m] == headers[m].work + (if headers[m].prev in work then work[headers[m].prev] else 0)
  }

  // ---- both chains and the commitments between them ----

  datatype Chains = Chains(side: SideTables, main: MainTables, infos: map<MainHash, Option<BlockHash>>) {

    /** The part of the invariant on which the meaning of a commitment rests. */
    ghost predicate Sound() {
      TreesValid() && ZERO_HASH !in main.headers && InfosClosed(main.headers, infos)
    }

    ghost predicate TreesValid() {
      side.Tree().Valid() && main.Tree().Valid()
    }

    ghost predicate Valid() {
      && side.Valid() && main.Valid() && InfosClosed(main.headers, infos)
      && forall b {:trigger Anchored(b)} | b in side.headers :: Anchored(b)
    }

    /** The mainchain block that `b` was built on is known. */
    ghost predicate Anchored(b: BlockHash)
      requires b in side.headers
    {
      side.headers[b].prevMain in main.successors
    }

    /**
     Mainchain block `m` validly commits to side block `b`: the commitment names
     `b`, `m` follows the mainchain block `b` was built on, and the parent of
     `b`, if any, is validly committed to in the ancestry of `m`.
     */
    ghost predicate Verifies(b: BlockHash, m: MainHash)
      requires TreesValid() && b in side.headers
      decreases side.heights[b], 0
    {
      assert side.Tree().Linked(b);
      && m in infos && m in main.headers && infos[m] == Some(b)
      && main.headers[m].prev == side.headers[b].prevMain
      && (side.headers[b].prevSide.Some? ==> CommittedBefore(side.headers[b].prevSide.value, m))
    }

    ghost predicate CommittedBefore(p: BlockHash, m: MainHash)
      requires TreesValid() && p in side.headers && m in main.headers
      decreases side.heights[p], 1
    {
      exists a :: a in main.headers && main.Tree().IsAncestor(a, m) && Verifies(p, a)
    }
  }

  /** Block infos are stored for known mainchain blocks, ancestors first. */
  ghost predicate InfosClosed(headers: map<MainHash, MainHeader>, infos: map<MainHash, Option<BlockHash>>) {
    && infos.Keys <= headers.Keys
    && forall m {:trigger InfoFollows(headers, infos, m)} | m in infos :: InfoFollows(headers, infos, m)
  }

  ghost predicate InfoFollows(headers: map<MainHash, MainHeader>, infos: map<MainHash, Option<BlockHash>>, m: MainHash)
    requires m in headers
  {
    headers[m].prev == ZERO_HASH || headers[m].prev in infos
  }

  // ---- the whole archive ----

  datatype Db = Db(
    chains: Chains,
    bmm: map<BlockHash, map<MainHash, BmmResult>>,
    bodies: map<BlockHash, seq<Txid>>,
    inclusions: map<Txid, map<BlockHash, nat>>,
    invalid: set<BlockHash>)
  {
    ghost predicate Valid() {
      && chains.Valid()
      && BmmExact(chains, bmm)
      && bmm.Keys <= chains.side.headers.Keys + invalid
      && InclusionsExact(bodies, inclusions)
      && bodies.Keys <= chains.side.headers.Keys && invalid !! chains.side.headers.Keys
    }
  }

  predicate IsVerified(bmm: map<BlockHash, map<MainHash, BmmResult>>, b: BlockHash, m: MainHash) {
    b in bmm && m in bmm[b] && bmm[b][m] == Verified
  }

  /** The incrementally maintained table agrees with the recursive meaning. */
  ghost predicate BmmExact(c: Chains, bmm: map<BlockHash, map<MainHash, BmmResult>>)
    requires c.Sound()
  {
    && (forall b, m {:trigger VerdictAgrees(c, bmm, b, m)} | b in c.side.headers :: VerdictAgrees(c, bmm, b, m))
    && (forall b {:trigger RowKnown(c, bmm, b)} | b in bmm :: RowKnown(c, bmm, b))
  }

  /** Verdicts are only held at mainchain blocks whose info is stored. */
  ghost predicate RowKnown(c: Chains, bmm: map<BlockHash, map<MainHash, BmmResult>>, b: BlockHash)
    requires b in bmm
  {
    bmm[b].Keys <= c.infos.Keys
  }

  ghost predicate VerdictAgrees(c: Chains, bmm: map<BlockHash, map<MainHash, BmmResult>>, b: BlockHash, m: MainHash)
    requires c.Sound() && b in c.side.headers
  {
    IsVerified(bmm, b, m) <==> c.Verifies(b, m)
  }

  predicate Included(inclusions: map<Txid, map<BlockHash, nat>>, t: Txid, b: BlockHash) {
    t in inclusions && b in inclusions[t]
  }

  /** `inclusions` is the index of the stored bodies: last position of each transaction per block. */
  ghost predicate InclusionsExact(bodies: map<BlockHash, seq<Txid>>, inclusions: map<Txid, map<BlockHash, nat>>) {
    && (forall t, b :: Included(inclusions, t, b) <==> b in bodies && t in bodies[b])
    && (forall t, b | Included(inclusions, t, b) :: inclusions[t][b] == LastIndex(bodies[b], t))
    && (forall t | t in inclusions :: inclusions[t] != map[])
  }

  function LastIndex(txs: seq<Txid>, t: Txid): (i: int)
    ensures t in txs ==> 0 <= i < |txs| && txs[i] == t && forall j | i < j < |txs| :: txs[j] != t
    ensures t !in txs ==> i == -1
  {
    if txs == [] then -1
    else if txs[|txs| - 1] == t then |txs| - 1
    else LastIndex(txs[..|txs| - 1], t)
  }

  const EMPTY: Db := Db(
    Chains(SideTables(map[], map[], map[], map[None := {}]),
           MainTables(map[], map[], map[], map[ZERO_HASH := {}], map[]), map[]),
    map[], map[], map[], {})

  lemma EmptyValid()
    ensures EMPTY.Valid()
  {
  }

  // ---- stability of verdicts ----

  /** All mainchain ancestors of a block with a stored info have stored infos. */
  lemma {:induction false} InfoAncestors(main: MainTables, infos: map<MainHash, Option<BlockHash>>, a: MainHash,
                                         m: MainHash)
    requires main.Tree().Valid() && InfosClosed(main.headers, infos) && ZERO_HASH !in main.headers
    requires m in infos && main.Tree().IsAncestor(a, m)
    ensures a in infos
    decreases main.heights[m]
  {
    var t := main.Tree();
    assert t.Linked(m) && InfoFollows(main.headers, infos, m);
    if a != m {
      t.AncestorDepth(a, m);
      assert t.Up(m, t.height[m] - t.height[a]) == t.Up(t.parent[m].value, t.height[m] - t.height[a] - 1);
      InfoAncestors(main, infos, a, t.parent[m].value);
    }
  }

  /** Total work never falls along the mainchain. */
  lemma {:induction false} WorkGrows(main: MainTables, a: MainHash, m: MainHash)
    requires main.Tree().Valid() && WorkExact(main.headers, main.totalWork) && ZERO_HASH !in main.headers
    requires m in main.headers && main.Tree().IsAncestor(a, m)
    ensures a in main.totalWork && main.totalWork[a] <= main.totalWork[m]
    decreases main.heights[m]
  {
    var t := main.Tree();
    assert t.Linked(m) && WorkAdds(main.headers, main.totalWork, m);
    if a != m {
      t.AncestorDepth(a, m);
      assert t.Up(m, t.height[m] - t.height[a]) == t.Up(t.parent[m].value, t.height[m] - t.height[a] - 1);
      WorkGrows(main, a, t.parent[m].value);
    }
  }

  /** `b` keeps every header and info of `a`; it may know more. */
  ghost predicate Extends(a: Chains, b: Chains) {
    && (forall h | h in a.side.headers :: h in b.side.headers && b.side.headers[h] == a.side.headers[h])
    && (forall m | m in a.main.headers :: m in b.main.headers && b.main.headers[m] == a.main.headers[m])
    && (forall m | m in a.infos :: m in b.infos && b.infos[m] == a.infos[m])
  }

  lemma MainAncestorsStable(a: MainTables, b: MainTables, x: MainHash, m: MainHash)
    requires a.Tree().Valid() && b.Tree().Valid() && m in a.headers
    requires forall y | y in a.headers :: y in b.headers && b.headers[y] == a.headers[y]
    ensures a.Tree().IsAncestor(x, m) <==> b.Tree().IsAncestor(x, m)
  {
    forall n: nat
      ensures b.Tree().Up(m, n) == a.Tree().Up(m, n)
    {
      a.Tree().PutKeepsUp(b.Tree(), m, n);
    }
  }

  /**
   Whether a stored info verifies a stored header never depends on headers or
   infos that arrive later.
   */
  lemma {:induction false} VerifiesStable(a: Chains, b: Chains, s: BlockHash, m: MainHash)
    requires a.Sound() && b.Sound()
    requires Extends(a, b) && s in a.side.headers && m in a.infos
    ensures a.Verifies(s, m) <==> b.Verifies(s, m)
    decreases a.side.heights[s]
  {
    assert a.side.Tree().Linked(s);
    if a.side.headers[s].prevSide.Some? {
      var p := a.side.headers[s].prevSide.value;
      forall x: MainHash
        ensures (a.main.Tree().IsAncestor(x, m) && x in a.main.headers && a.Verifies(p, x)) <==>
                (b.main.Tree().IsAncestor(x, m) && x in b.main.headers && b.Verifies(p, x))
      {
        MainAncestorsStable(a.main, b.main, x, m);
        if a.main.Tree().IsAncestor(x, m) {
          InfoAncestors(a.main, a.infos, x, m);
          VerifiesStable(a, b, p, x);
        }
      }
    }
  }
}
