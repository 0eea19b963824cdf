/**
 Following the mainchain: the tracked tip walks down to the common ancestor with
 the new mainchain tip and then up to it in batches of 32 blocks. Everything is
 committed at the end, or nothing.
 */
module MainchainSync {
  import opened Wrappers
  import opened Arith
  import opened ChainTypes
  import opened HeaderTree
  import opened ArchiveDb
  import opened AncestorIter
  import Side = SideTips

  datatype Error =
    | NoMainHeaderInfo(main: MainHash)
    | NoMainHeight(unknown: MainHash)
    | NoMainBlockInfo(noInfo: MainHash)
    | NoHeader(side: BlockHash)
    | NoBmmResult(undecided: BlockHash)
    | SideTipsError(sideTips: Side.Error)

  datatype Event =
    | DisconnectBlock(down: MainHash)
    | ConnectBlock(header: MainHeader, info: Option<BlockHash>)

  /** What the walk reads and does not change. */
  datatype Env = Env(c: Chains, bmm: map<BlockHash, map<MainHash, BmmResult>>, bodies: set<BlockHash>) {
    ghost predicate Valid() {
      && c.TreesValid() && c.main.Index().Valid() && Searchable(c.main.Tree()) && ZERO_HASH !in c.main.headers
      && (forall m | m in c.main.headers ::
          c.main.headers[m].hash == m && c.main.headers[m].height == c.main.heights[m])
      && (forall b | b in c.side.headers :: c.side.headers[b].hash == b)
      && WorkExact(c.main.headers, c.main.totalWork) && InfosClosed(c.main.headers, c.infos)
    }

    /** The tracked tip is a stored mainchain header, and the tracked work is its total work. */
    ghost predicate Tracks(s: Side.SideTips)
      requires Valid()
    {
      match s.tip
      case None => s.work == 0
      case Some(i) => i.hash in c.main.headers && i == c.main.headers[i.hash] && s.work == c.main.totalWork[i.hash]
    }

    function ParentInfo(i: MainHeader): Result<Option<MainHeader>, Error> {
      if i.prev == ZERO_HASH then Ok(None)
      else if i.prev !in c.main.headers then Err(NoMainHeaderInfo(i.prev))
      else Ok(Some(c.main.headers[i.prev]))
    }

    /** Disconnect the tracked tip. */
    function Down(s: Side.SideTips): Result<Side.SideTips, Error>
      requires s.tip.Some?
    {
      var prev :- ParentInfo(s.tip.value);
      if s.tip.value.hash !in c.infos then Err(NoMainBlockInfo(s.tip.value.hash))
      else LiftSide(Side.DisconnectMain(s, prev, c.infos[s.tip.value.hash]))
    }

    /** The commitment that counts when `m` is connected: one to a stored block on a tracked parent, verified here. */
    function CommitmentAt(s: Side.SideTips, m: MainHash): Result<Option<Header>, Error> {
      if m !in c.infos then Err(NoMainBlockInfo(m))
      else if c.infos[m].None? || c.infos[m].value !in bodies then Ok(None)
      else
        var b := c.infos[m].value;
        if b !in c.side.headers then Err(NoHeader(b))
        else if c.side.headers[b].prevSide.Some? && c.side.headers[b].prevSide.value !in s.tips then Ok(None)
        else if b !in bmm || m !in bmm[b] then Err(NoBmmResult(b))
        else if bmm[b][m] == Verified then Ok(Some(c.side.headers[b])) else Ok(None)
    }

    /** Connect `m` on the tracked tip. */
    function Up(s: Side.SideTips, m: MainHash): Result<Side.SideTips, Error> {
      if m !in c.main.headers then Err(NoMainHeaderInfo(m))
      else
        var commitment :- CommitmentAt(s, m);
        LiftSide(Side.ConnectMain(s, c.main.headers[m], commitment))
    }

    /** Disconnect `n` times. */
    ghost function Downs(s: Side.SideTips, n: nat): Result<Side.SideTips, Error> {
      if n == 0 then Ok(s)
      else
        var t :- Downs(s, n - 1);
        if t.tip.None? then Err(SideTipsError(Side.NoMainchainTip)) else Down(t)
    }

    /** Connect the first `n` of `ms`. */
    ghost function Ups(s: Side.SideTips, ms: seq<MainHash>, n: nat): Result<Side.SideTips, Error>
      requires n <= |ms|
    {
      if n == 0 then Ok(s)
      else
        var t :- Ups(s, ms, n - 1);
        Up(t, ms[n - 1])
    }

    /** How far down the walk goes: to the common ancestor, or past the genesis when there is none. */
    ghost function Depth(tip: Option<MainHeader>, target: MainHash): (n: nat)
      requires Valid() && (tip.Some? ==> tip.value.hash in c.main.headers)
               && (target == ZERO_HASH || target in c.main.headers)
      ensures tip.Some? ==> n <= c.main.heights[tip.value.hash] + 1
    {
      if tip.None? then 0
      else if Shared(tip.value.hash, target)
              then c.main.heights[tip.value.hash] - c.main.heights[Fork(tip.value.hash, target)]
      else c.main.heights[tip.value.hash] + 1
    }

    ghost predicate Shared(a: MainHash, target: MainHash)
      requires Valid() && a in c.main.headers
    {
      target in c.main.headers && c.main.Tree().Root(a) == c.main.Tree().Root(target)
    }

    /** The last common ancestor of two blocks on one chain. */
    ghost function Fork(a: MainHash, target: MainHash): (x: MainHash)
      requires Valid() && a in c.main.headers && Shared(a, target)
      ensures x in c.main.headers && c.main.Tree().IsLastCommon(x, a, target) && c.main.heights[x] <= c.main.heights[a]
    {
      var t := c.main.Tree();
      ForkExists(a, target);
      var x :| x in c.main.headers && t.IsLastCommon(x, a, target);
      t.AncestorDepth(x, a);
      x
    }

    lemma ForkExists(a: MainHash, target: MainHash)
      requires Valid() && a in c.main.headers && Shared(a, target)
      ensures exists x :: x in c.main.headers && c.main.Tree().IsLastCommon(x, a, target)
    {
      HighestCommon(a, target, c.main.heights[a]);
    }

    /** Search downwards from height `h` for the highest common ancestor. */
    lemma {:induction false} HighestCommon(a: MainHash, target: MainHash, h: nat)
      requires Valid() && a in c.main.headers && Shared(a, target) && h <= c.main.heights[a]
      requires forall y | y in c.main.headers && c.main.Tree().IsCommon(y, a, target) :: c.main.heights[y] <= h
      ensures exists x :: x in c.main.headers && c.main.Tree().IsLastCommon(x, a, target)
      decreases h
    {
      var t := c.main.Tree();
      var x := t.Up(a, t.height[a] - h).value;
      if t.IsAncestor(x, target) {
        assert t.IsLastCommon(x, a, target);
      } else {
        t.AncestorDepth(t.Root(a), a);
        assert t.IsCommon(t.Root(a), a, target);
        forall y | y in c.main.headers && t.IsCommon(y, a, target)
          ensures c.main.heights[y] <= h - 1
        {
          t.AncestorDepth(y, a);
        }
        HighestCommon(a, target, h - 1);
      }
    }

    /** The blocks to connect: from just above where the walk down ended up to the target. */
    ghost function Ahead(tip: Option<MainHeader>, target: MainHash): seq<MainHash>
      requires Valid() && (tip.Some? ==> tip.value.hash in c.main.headers)
               && (target == ZERO_HASH || target in c.main.headers)
    {
      if target == ZERO_HASH then []
      else if tip.Some? && Shared(tip.value.hash, target)
        then Rising(c.main.Tree(), target, c.main.heights[Fork(tip.value.hash, target)] + 1)
      else Rising(c.main.Tree(), target, 0)
    }

    /** Disconnect events for `n` blocks from `a` down, newest first. */
    ghost predicate DownEvents(a: Option<MainHeader>, n: nat, events: seq<Event>)
      requires Valid() && (a.Some? ==> a.value.hash in c.main.headers)
    {
      && |events| == n
      && forall i | 0 <= i < n ::
         a.Some? && events[i].DisconnectBlock? && c.main.Tree().Up(a.value.hash, i) == Some(events[i].down)
    }

    ghost predicate UpEvents(ms: seq<MainHash>, n: nat, events: seq<Event>)
      requires n <= |ms|
    {
      && |events| == n && forall i | 0 <= i < n :: UpEvent(ms[i], events[i])
    }

    ghost predicate UpEvent(m: MainHash, e: Event) {
      m in c.main.headers && m in c.infos && e == ConnectBlock(c.main.headers[m], c.infos[m])
    }
  }

  function LiftSide<T>(r: Result<T, Side.Error>): Result<T, Error> {
    match r case Ok(v) => Ok(v) case Err(e) => Err(SideTipsError(e))
  }

  /**
   The commitment of a mainchain block counts exactly if the block named has a
   body, its parent, if any, is recorded, and the commitment verifies it.
   */
  lemma CommitmentCounts(env: Env, s: Side.SideTips, m: MainHash, h: Header)
    requires env.Valid() && BmmExact(env.c, env.bmm) && m in env.c.infos && env.CommitmentAt(s, m).Ok?
    ensures env.CommitmentAt(s, m) == Ok(Some(h)) <==>
            && env.c.infos[m].Some?
            && var b := env.c.infos[m].value;
            && b in env.bodies && b in env.c.side.headers && h == env.c.side.headers[b]
            && (h.prevSide.Some? ==> h.prevSide.value in s.tips) && env.c.Verifies(b, m)
  {
    if env.c.infos[m].Some? && env.c.infos[m].value in env.c.side.headers {
      assert VerdictAgrees(env.c, env.bmm, env.c.infos[m].value, m);
    }
  }

  // ---- a failed step is a failed walk ----

  lemma {:induction false} DownsStop(env: Env, s: Side.SideTips, n: nat, m: nat)
    requires n <= m && env.Downs(s, n).Err?
    ensures env.Downs(s, m) == env.Downs(s, n)
    decreases m
  {
    if n < m {
      DownsStop(env, s, n, m - 1);
    }
  }

  lemma {:induction false} UpsStop(env: Env, s: Side.SideTips, ms: seq<MainHash>, n: nat, m: nat)
    requires n <= m <= |ms| && env.Ups(s, ms, n).Err?
    ensures env.Ups(s, ms, m) == env.Ups(s, ms, n)
    decreases m
  {
    if n < m {
      UpsStop(env, s, ms, n, m - 1);
    }
  }

  /** Disconnecting moves the tracked tip to its parent. */
  lemma DownMoves(env: Env, s: Side.SideTips)
    requires env.Valid() && env.Tracks(s) && s.tip.Some? && env.Down(s).Ok?
    ensures env.Tracks(env.Down(s).value)
    ensures var a := s.tip.value.hash;
            env.Down(s).value.tip ==
            match env.c.main.Tree().Up(a, 1) case None => None case Some(p) => Some(env.c.main.headers[p])
  {
    var t := env.c.main.Tree();
    var a := s.tip.value.hash;
    assert t.Linked(a) && WorkAdds(env.c.main.headers, env.c.main.totalWork, a);
    assert t.Up(a, 1) == match t.parent[a] case None => None case Some(p) => t.Up(p, 0);
  }

  /** Connecting makes `m` the tracked tip. */
  lemma UpMoves(env: Env, s: Side.SideTips, m: MainHash)
    requires env.Valid() && env.Tracks(s) && env.Up(s, m).Ok?
    ensures m in env.c.main.headers && m in env.c.infos && env.Up(s, m).value.tip == Some(env.c.main.headers[m])
    ensures env.Tracks(env.Up(s, m).value)
  {
    assert WorkAdds(env.c.main.headers, env.c.main.totalWork, m);
  }

  // ---- the walks ----

  datatype Walk = Walk(side: Side.SideTips, events: seq<Event>)

  method ForkHash(env: Env, tip: Option<MainHeader>, target: MainHash) returns (r: Result<MainHash, Error>)
    requires env.Valid() && (tip.Some? ==> tip.value.hash in env.c.main.headers)
    ensures tip.None? ==> r == Ok(ZERO_HASH)
    ensures r.Err? ==> target != ZERO_HASH && target !in env.c.main.headers
    ensures r.Ok? && tip.Some? ==> (target == ZERO_HASH || target in env.c.main.headers)
    ensures r.Ok? && tip.Some? && env.Shared(tip.value.hash, target) ==> r.value == env.Fork(tip.value.hash, target)
    ensures r.Ok? && tip.Some? && !env.Shared(tip.value.hash, target) ==>
              r.value == ZERO_HASH || !env.c.main.Tree().IsAncestor(r.value, tip.value.hash)
  {
    if tip.None? || target == ZERO_HASH { return Ok(ZERO_HASH); }
    var x := LastCommonAncestorUnchecked(env.c.main.Index(), target, tip.value.hash);
    if x.Err? { return Err(NoMainHeight(target)); }
    ghost var t := env.c.main.Tree();
    if env.Shared(tip.value.hash, target) {
      t.LastCommonUnique(x.value, env.Fork(tip.value.hash, target), tip.value.hash, target);
    } else if t.IsAncestor(x.value, tip.value.hash) {
      t.RootOfAncestor(x.value, tip.value.hash);
      t.RootOfAncestor(x.value, target);
    }
    return Ok(x.value);
  }

  /** State of the walk down after `n` steps from `s`. */
  ghost predicate WentDown(env: Env, s: Side.SideTips, n: nat, w: Walk)
    requires env.Valid() && env.Tracks(s)
  {
    && env.Downs(s, n) == Ok(w.side) && env.Tracks(w.side) && env.DownEvents(s.tip, n, w.events)
    && (n > 0 ==> s.tip.Some?)
    && w.side.tip == AtDepth(env, s.tip, n)
  }

  ghost function AtDepth(env: Env, tip: Option<MainHeader>, n: nat): Option<MainHeader>
    requires env.Valid() && (tip.Some? ==> tip.value.hash in env.c.main.headers)
  {
    if tip.None? then None
    else match env.c.main.Tree().Up(tip.value.hash, n) case None => None case Some(p) => Some(env.c.main.headers[p])
  }

  lemma WentDownOne(env: Env, s: Side.SideTips, n: nat, w: Walk)
    requires env.Valid() && env.Tracks(s) && WentDown(env, s, n, w) && s.tip.Some?
             && (n == 0 ==> s.tip == AtDepth(env, s.tip, 0))
    requires w.side.tip.Some? && env.Down(w.side).Ok?
    ensures WentDown(env, s, n + 1, Walk(env.Down(w.side).value, w.events + [DisconnectBlock(w.side.tip.value.hash)]))
  {
    var t := env.c.main.Tree();
    DownMoves(env, w.side);
    t.UpPlus(s.tip.value.hash, n, 1);
  }

  /** `stop` is the last common ancestor of the tip and the target, or nothing on the tip's line. */
  ghost predicate RightStop(env: Env, tip: Option<MainHeader>, target: MainHash, stop: MainHash)
    requires env.Valid() && (tip.Some? ==> tip.value.hash in env.c.main.headers)
  {
    && (target == ZERO_HASH || target in env.c.main.headers)
    && (tip.Some? ==>
          if env.Shared(tip.value.hash, target) then stop == env.Fork(tip.value.hash, target)
          else stop == ZERO_HASH || !env.c.main.Tree().IsAncestor(stop, tip.value.hash))
  }

  /** On the way down, the stop is met exactly at the computed depth. */
  lemma StopsAt(env: Env, a: MainHash, target: MainHash, stop: MainHash, n: nat)
    requires env.Valid() && a in env.c.main.headers && RightStop(env, Some(env.c.main.headers[a]), target, stop)
    requires n <= env.Depth(Some(env.c.main.headers[a]), target)
    ensures (env.c.main.Tree().Up(a, n) == Some(stop) || env.c.main.Tree().Up(a, n).None?) <==>
            n == env.Depth(Some(env.c.main.headers[a]), target)
  {
    if env.Shared(a, target) {
      env.c.main.Tree().AncestorDepth(stop, a);
    }
  }

  /** The walk down after `n` steps: it ends exactly at the computed depth. */
  ghost predicate GoingDown(env: Env, s: Side.SideTips, target: MainHash, stop: MainHash, n: nat, w: Walk)
    requires env.Valid() && env.Tracks(s) && (target == ZERO_HASH || target in env.c.main.headers)
  {
    && n <= env.Depth(s.tip, target) && WentDown(env, s, n, w)
    && (w.side.tip.None? || w.side.tip.value.hash == stop <==> n == env.Depth(s.tip, target))
  }

  lemma StopsThere(env: Env, s: Side.SideTips, target: MainHash, stop: MainHash, n: nat, w: Walk)
    requires env.Valid() && env.Tracks(s) && RightStop(env, s.tip, target, stop)
    requires WentDown(env, s, n, w) && n <= env.Depth(s.tip, target)
    ensures GoingDown(env, s, target, stop, n, w)
  {
    if s.tip.Some? {
      StopsAt(env, s.tip.value.hash, target, stop, n);
    }
  }

  lemma StartsDown(env: Env, s: Side.SideTips, target: MainHash, stop: MainHash)
    requires env.Valid() && env.Tracks(s) && RightStop(env, s.tip, target, stop)
    ensures GoingDown(env, s, target, stop, 0, Walk(s, []))
  {
    if s.tip.Some? {
      assert env.c.main.Tree().Up(s.tip.value.hash, 0) == Some(s.tip.value.hash);
    }
    StopsThere(env, s, target, stop, 0, Walk(s, []));
  }

  lemma GoesDown(env: Env, s: Side.SideTips, target: MainHash, stop: MainHash, n: nat, w: Walk)
    requires env.Valid() && env.Tracks(s) && RightStop(env, s.tip, target, stop)
             && GoingDown(env, s, target, stop, n, w)
    requires n < env.Depth(s.tip, target) && env.Down(w.side).Ok?
    ensures GoingDown(env, s, target, stop, n + 1,
                      Walk(env.Down(w.side).value, w.events + [DisconnectBlock(w.side.tip.value.hash)]))
  {
    WentDownOne(env, s, n, w);
    StopsThere(env, s, target, stop, n + 1,
               Walk(env.Down(w.side).value, w.events + [DisconnectBlock(w.side.tip.value.hash)]));
  }

  /** Disconnect until the tip is `stop`, or until nothing is left. */
  method WalkDown(env: Env, s: Side.SideTips, target: MainHash, stop: MainHash) returns (r: Result<Walk, Error>)
    requires env.Valid() && env.Tracks(s) && RightStop(env, s.tip, target, stop)
    ensures r.Ok? ==> WentDown(env, s, env.Depth(s.tip, target), r.value)
    ensures r.Err? ==> env.Downs(s, env.Depth(s.tip, target)) == Err(r.error)
  {
    ghost var depth := env.Depth(s.tip, target);
    ghost var n := 0;
    var w := Walk(s, []);
    StartsDown(env, s, target, stop);
    while w.side.tip.Some? && w.side.tip.value.hash != stop
      invariant GoingDown(env, s, target, stop, n, w)
      decreases depth - n
    {
      var down := env.Down(w.side);
      if down.Err? {
        DownsStop(env, s, n + 1, depth);
        return Err(down.error);
      }
      GoesDown(env, s, target, stop, n, w);
      w := Walk(down.value, w.events + [DisconnectBlock(w.side.tip.value.hash)]);
      n := n + 1;
    }
    return Ok(w);
  }

  lemma OneMore<T>(batch: seq<T>, pending: seq<T>)
    requires pending != []
    ensures batch + pending == batch + [pending[0]] + pending[1..]
  {
  }

  lemma BatchIsPrefix<T>(all: seq<T>, batch: seq<T>, pending: seq<T>)
    requires all == batch + pending
    ensures |batch| <= |all| && batch == all[..|batch|]
  {
  }

  /** At most 32 blocks, from height `start` on, on the way up to `target`. */
  method NextBatch(env: Env, target: MainHash, start: nat) returns (batch: seq<MainHash>)
    requires env.Valid() && target in env.c.main.headers && start <= env.c.main.heights[target]
    ensures 0 < |batch| <= MAX_BATCH_SIZE && |batch| <= |Rising(env.c.main.Tree(), target, start)|
    ensures batch == Rising(env.c.main.Tree(), target, start)[..|batch|]
  {
    var iter := new AncestorsRev(env.c.main.Index(), target, start);
    ghost var all := iter.Pending();
    batch := [];
    while |batch| < MAX_BATCH_SIZE
      invariant |batch| <= MAX_BATCH_SIZE && iter.Valid() && fresh(iter)
      invariant all == batch + iter.Pending()
      invariant batch == [] ==> iter.Pending() != []
      decreases MAX_BATCH_SIZE - |batch|
    {
      ghost var pending := iter.Pending();
      var m := iter.Next();
      if m.None? { break; }
      OneMore(batch, pending);
      batch := batch + [m.value];
    }
    BatchIsPrefix(all, batch, iter.Pending());
  }

  /** `batch` is what follows after the first `n` of `ms`. */
  ghost predicate NextPart(ms: seq<MainHash>, n: nat, batch: seq<MainHash>) {
    n + |batch| <= |ms| && forall i | 0 <= i < |batch| :: batch[i] == ms[n + i]
  }

  /** State of the walk up after `n` of the blocks `ms`. */
  ghost predicate WentUp(env: Env, s: Side.SideTips, ms: seq<MainHash>, n: nat, w: Walk)
    requires env.Valid()
  {
    && n <= |ms| && env.Ups(s, ms, n) == Ok(w.side) && env.Tracks(w.side) && env.UpEvents(ms, n, w.events)
    && (if n == 0 then w.side.tip == s.tip
        else ms[n - 1] in env.c.main.headers && w.side.tip == Some(env.c.main.headers[ms[n - 1]]))
  }

  lemma WentUpOne(env: Env, s: Side.SideTips, ms: seq<MainHash>, n: nat, w: Walk)
    requires env.Valid() && n < |ms| && WentUp(env, s, ms, n, w) && env.Up(w.side, ms[n]).Ok?
    ensures ms[n] in env.c.main.headers && ms[n] in env.c.infos
    ensures WentUp(env, s, ms, n + 1,
                   Walk(env.Up(w.side, ms[n]).value,
                        w.events + [ConnectBlock(env.c.main.headers[ms[n]], env.c.infos[ms[n]])]))
  {
    UpMoves(env, w.side, ms[n]);
    var events := w.events + [ConnectBlock(env.c.main.headers[ms[n]], env.c.infos[ms[n]])];
    forall i | 0 <= i < n + 1
      ensures env.UpEvent(ms[i], events[i])
    {
    }
  }

  /** Connect the next of the blocks `ms`. */
  method ConnectNext(env: Env, ghost s: Side.SideTips, ghost ms: seq<MainHash>, ghost n: nat, w: Walk, m: MainHash)
    returns (r: Result<Walk, Error>)
    requires env.Valid() && WentUp(env, s, ms, n, w) && n < |ms| && m == ms[n]
    ensures r.Ok? ==> WentUp(env, s, ms, n + 1, r.value)
    ensures r.Err? ==> env.Ups(s, ms, |ms|) == Err(r.error)
  {
    var up := env.Up(w.side, m);
    if up.Err? {
      UpsStop(env, s, ms, n + 1, |ms|);
      return Err(up.error);
    }
    WentUpOne(env, s, ms, n, w);
    return Ok(Walk(up.value, w.events + [ConnectBlock(env.c.main.headers[m], env.c.infos[m])]));
  }

  /** Connect a batch, which is the next part of `ms`. */
  method ConnectBatch(env: Env, ghost s: Side.SideTips, ghost ms: seq<MainHash>, ghost n: nat, w: Walk,
                      batch: seq<MainHash>)
    returns (r: Result<Walk, Error>)
    requires env.Valid() && WentUp(env, s, ms, n, w) && NextPart(ms, n, batch)
    ensures r.Ok? ==> WentUp(env, s, ms, n + |batch|, r.value)
    ensures r.Err? ==> env.Ups(s, ms, |ms|) == Err(r.error)
  {
    r := Ok(w);
    for i := 0 to |batch|
      invariant r.Ok? && WentUp(env, s, ms, n + i, r.value)
    {
      r := ConnectNext(env, s, ms, n + i, r.value, batch[i]);
      if r.Err? { return; }
    }
  }

  /** The tracked tip is right below the blocks ahead, or is the target if none are. */
  ghost predicate Below(env: Env, s: Side.SideTips, target: MainHash, ms: seq<MainHash>)
    requires env.Valid()
  {
    var start := if s.tip.None? then 0 else s.tip.value.height + 1;
    && (target == ZERO_HASH || target in env.c.main.headers) && env.Tracks(s)
    && (if target == ZERO_HASH then ms == [] && s.tip.None?
        else ms == Rising(env.c.main.Tree(), target, start) && (ms == [] ==> Side.TipHash(s) == target))
  }

  /** The next batch, as a part of the blocks `ms` that lie ahead. */
  method NextOf(env: Env, ghost s: Side.SideTips, target: MainHash, ghost ms: seq<MainHash>, ghost n: nat, w: Walk)
    returns (batch: seq<MainHash>)
    requires env.Valid() && Below(env, s, target, ms) && WentUp(env, s, ms, n, w) && Side.TipHash(w.side) != target
    ensures batch != [] && NextPart(ms, n, batch)
  {
    AheadOfWalk(env, s, target, ms, n, w);
    batch := NextBatch(env, target, if w.side.tip.None? then 0 else w.side.tip.value.height + 1);
    SlicePart(ms, n, batch);
  }

  lemma SlicePart(ms: seq<MainHash>, n: nat, batch: seq<MainHash>)
    requires n <= |ms| && |batch| <= |ms[n..]| && batch == ms[n..][..|batch|]
    ensures NextPart(ms, n, batch)
  {
    forall i | 0 <= i < |batch|
      ensures batch[i] == ms[n + i]
    {
      assert batch[i] == ms[n..][i];
    }
  }

  /** Connect the next batch. */
  method WalkBatch(env: Env, ghost s: Side.SideTips, target: MainHash, ghost ms: seq<MainHash>, ghost n: nat, w: Walk)
    returns (r: Result<Walk, Error>, ghost reached: nat)
    requires env.Valid() && Below(env, s, target, ms) && WentUp(env, s, ms, n, w) && Side.TipHash(w.side) != target
    ensures r.Ok? ==> n < reached <= |ms| && WentUp(env, s, ms, reached, r.value)
    ensures r.Err? ==> env.Ups(s, ms, |ms|) == Err(r.error)
  {
    var batch := NextOf(env, s, target, ms, n, w);
    r := ConnectBatch(env, s, ms, n, w, batch);
    reached := n + |batch|;
  }

  /** Connect in batches until the target is the tip. */
  method WalkUp(env: Env, s: Side.SideTips, target: MainHash, ghost ms: seq<MainHash>) returns (r: Result<Walk, Error>)
    requires env.Valid() && Below(env, s, target, ms)
    ensures r.Ok? ==> WentUp(env, s, ms, |ms|, r.value)
    ensures r.Err? ==> env.Ups(s, ms, |ms|) == Err(r.error)
  {
    ghost var n := 0;
    var w := Walk(s, []);
    while Side.TipHash(w.side) != target
      invariant WentUp(env, s, ms, n, w)
      decreases |ms| - n
    {
      r, n := WalkBatch(env, s, target, ms, n, w);
      if r.Err? { return; }
      w := r.value;
    }
    AtTarget(env, s, target, ms, n, w);
    r := Ok(w);
  }

  /** While the target is not reached, the rest of `ms` starts right above the tip. */
  lemma AheadOfWalk(env: Env, s: Side.SideTips, target: MainHash, ms: seq<MainHash>, n: nat, w: Walk)
    requires env.Valid() && Below(env, s, target, ms) && WentUp(env, s, ms, n, w) && Side.TipHash(w.side) != target
    ensures n < |ms| && target in env.c.main.headers
    ensures var start := if w.side.tip.None? then 0 else w.side.tip.value.height + 1;
            start <= env.c.main.heights[target] && ms[n..] == Rising(env.c.main.Tree(), target, start)
  {
    if ms != [] {
      var t := env.c.main.Tree();
      t.AncestorDepth(ms[|ms| - 1], target);
    }
  }

  /** The target is only reached at the end of `ms`. */
  lemma AtTarget(env: Env, s: Side.SideTips, target: MainHash, ms: seq<MainHash>, n: nat, w: Walk)
    requires env.Valid() && Below(env, s, target, ms) && WentUp(env, s, ms, n, w) && Side.TipHash(w.side) == target
    ensures n == |ms| && WentUp(env, s, ms, |ms|, w)
  {
    if n < |ms| {
      assert false;
    }
  }

  // ---- the tracked tip ----

  class MainchainTask {
    const env: Env
    var side: Side.SideTips
    var emitted: seq<Event>

    ghost predicate Valid()
      reads this
    {
      env.Valid() && env.Tracks(side)
    }

    constructor (env: Env)
      requires env.Valid()
      ensures Valid() && this.env == env && side == Side.SideTips(None, 0, map[], map[]) && emitted == []
    {
      this.env, side, emitted := env, Side.SideTips(None, 0, map[], map[]), [];
    }

    /**
     Move the tracked tip to `target`. Emits the disconnects from the old tip down
     to the common ancestor, newest first, then the connects up to the target in
     height order, each block once; on an error nothing changes and nothing is
     emitted. It fails exactly when one of these steps fails.
     */
    method SyncSideTipsToTip(target: MainHash) returns (r: Result<(), Error>)
      requires Valid()
      modifies this
      ensures Valid()
      ensures r.Err? ==> side == old(side) && emitted == old(emitted)
      ensures r.Ok? ==> Side.TipHash(side) == target
      ensures target != ZERO_HASH && target !in env.c.main.headers ==> r.Err?
      ensures target == ZERO_HASH || target in env.c.main.headers ==>
                var n, ms := env.Depth(old(side).tip, target), env.Ahead(old(side).tip, target);
                && (r.Ok? <==> env.Downs(old(side), n).Ok? && env.Ups(env.Downs(old(side), n).value, ms, |ms|).Ok?)
                && (r.Ok? ==>
                      env.Ups(env.Downs(old(side), n).value, ms, |ms|) == Ok(side)
                      && Emits(env, old(side).tip, n, ms, old(emitted), emitted))
    {
      var fork := ForkHash(env, side.tip, target);
      if fork.Err? { return Err(fork.error); }
      if target != ZERO_HASH && target !in env.c.main.headers {
        return Err(NoMainHeaderInfo(target));
      }
      var down := WalkDown(env, side, target, fork.value);
      if down.Err? { return Err(down.error); }
      ghost var n, ms := env.Depth(side.tip, target), env.Ahead(side.tip, target);
      LandsBelow(env, side, target, down.value);
      var up := WalkUp(env, down.value.side, target, ms);
      if up.Err? { return Err(up.error); }
      ReachesTarget(env, down.value.side, target, ms, up.value);
      EventsJoin(env, side.tip, n, ms, emitted, down.value.events, up.value.events);
      side := up.value.side;
      emitted := emitted + down.value.events + up.value.events;
      return Ok(());
    }
  }

  /** `after` adds `n` disconnects from `tip` down, newest first, and the connects of `ms`, in order. */
  ghost predicate Emits(env: Env, tip: Option<MainHeader>, n: nat, ms: seq<MainHash>, before: seq<Event>,
                        after: seq<Event>)
    requires env.Valid() && (tip.Some? ==> tip.value.hash in env.c.main.headers)
  {
    && |after| == |before| + n + |ms| && after[..|before|] == before
    && env.DownEvents(tip, n, after[|before|..|before| + n])
    && env.UpEvents(ms, |ms|, after[|before| + n..])
  }

  lemma EventsJoin(env: Env, tip: Option<MainHeader>, n: nat, ms: seq<MainHash>, before: seq<Event>, downs: seq<Event>,
                   ups: seq<Event>)
    requires env.Valid() && (tip.Some? ==> tip.value.hash in env.c.main.headers)
    requires env.DownEvents(tip, n, downs) && env.UpEvents(ms, |ms|, ups)
    ensures Emits(env, tip, n, ms, before, before + downs + ups)
  {
    var after := before + downs + ups;
    assert after[|before|..|before| + n] == downs && after[|before| + n..] == ups;
  }

  lemma LandsBelow(env: Env, s: Side.SideTips, target: MainHash, w: Walk)
    requires env.Valid() && env.Tracks(s) && (target == ZERO_HASH || target in env.c.main.headers)
    requires WentDown(env, s, env.Depth(s.tip, target), w)
    ensures Below(env, w.side, target, env.Ahead(s.tip, target))
  {
    if s.tip.Some? && env.Shared(s.tip.value.hash, target) {
      var t := env.c.main.Tree();
      var x := env.Fork(s.tip.value.hash, target);
      t.AncestorDepth(x, s.tip.value.hash);
      t.AncestorDepth(x, target);
    }
  }

  lemma ReachesTarget(env: Env, s: Side.SideTips, target: MainHash, ms: seq<MainHash>, w: Walk)
    requires env.Valid() && Below(env, s, target, ms) && WentUp(env, s, ms, |ms|, w)
    ensures env.Tracks(w.side) && Side.TipHash(w.side) == target
  {
    if ms != [] {
      env.c.main.Tree().AncestorDepth(ms[|ms| - 1], target);
    }
  }
}
