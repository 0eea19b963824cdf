/**
 When the mainchain walk succeeds. The way up only needs the block infos; the way
 down also needs the row of every sidechain tip that a disconnected block names,
 and the way up does not always create that row.
 */
module MainchainUndo {
  import opened Wrappers
  import opened Arith
  import opened ChainTypes
  import opened HeaderTree
  import opened ArchiveDb
  import opened AncestorIter
  import opened MainchainSync
  import Side = SideTips

  // ---- one block ----

  /** The sidechain block that `m` names, if any, is tracked, and was put there by another mainchain block. */
  predicate TrackedElsewhere(env: Env, s: Side.SideTips, m: MainHash)
    requires m in env.c.infos
  {
    match env.c.infos[m]
    case None => true
    case Some(b) => b in s.tips && s.tips[b].main != m
  }

  /**
   Disconnecting a mainchain block right after it was connected restores the
   tables exactly if it names no sidechain block, or one that another mainchain
   block had put there before.
   */
  lemma UpThenDown(env: Env, s: Side.SideTips, m: MainHash)
    requires env.Valid() && env.Tracks(s) && env.Up(s, m).Ok?
    ensures m in env.c.infos && env.Up(s, m).value.tip.Some?
    ensures env.Down(env.Up(s, m).value) == Ok(s) <==> TrackedElsewhere(env, s, m)
  {
    var i := env.c.main.headers[m];
    var commitment := env.CommitmentAt(s, m).value;
    var up := env.Up(s, m).value;
    assert env.c.main.Tree().Linked(m);
    assert env.ParentInfo(i) == Ok(s.tip);
    if commitment.Some? {
      Side.DisconnectUndoes(s, i, commitment);
    } else if env.c.infos[m].Some? {
      var b := env.c.infos[m].value;
      if b in s.tips && s.tips[b].main == m && s.tips[b] in s.ordered {
        assert s.tips[b] !in s.ordered - {s.tips[b]};
      }
    }
  }

  /**
   A commitment that is passed over on the way up, for want of the body or of a
   tracked parent, makes its mainchain block impossible to disconnect unless the
   sidechain block was tracked already.
   */
  lemma PassedOverIsStuck(env: Env, s: Side.SideTips, m: MainHash)
    requires env.Valid() && env.Tracks(s) && env.Up(s, m).Ok?
    requires env.CommitmentAt(s, m) == Ok(None) && env.c.infos[m].Some? && env.c.infos[m].value !in s.tips
    ensures env.Down(env.Up(s, m).value) == Err(SideTipsError(Side.MissingSidechainTip(env.c.infos[m].value)))
  {
    assert env.c.main.Tree().Linked(m);
    assert env.ParentInfo(env.c.main.headers[m]) == Ok(s.tip);
  }

  // ---- the whole way down ----

  /** The row that disconnecting `m` looks for is there. */
  predicate CanDrop(env: Env, s: Side.SideTips, m: MainHash) {
    && m in env.c.infos
    && match env.c.infos[m]
       case None => true
       case Some(b) => b in s.tips && (s.tips[b].main == m ==> s.tips[b] in s.ordered)
  }

  /** Block `i` on the way down. */
  ghost predicate CanDropAt(env: Env, s: Side.SideTips, i: nat)
    requires env.Valid() && env.Tracks(s) && s.tip.Some? && i <= env.c.main.heights[s.tip.value.hash]
  {
    CanDrop(env, s, env.c.main.Tree().Up(s.tip.value.hash, i).value)
  }

  /** A disconnect fails only for a missing info or a missing row. */
  lemma DownExactly(env: Env, s: Side.SideTips)
    requires env.Valid() && env.Tracks(s) && s.tip.Some?
    ensures env.Down(s).Ok? <==> CanDrop(env, s, s.tip.value.hash)
  {
    var a := s.tip.value.hash;
    assert env.c.main.Tree().Linked(a) && WorkAdds(env.c.main.headers, env.c.main.totalWork, a);
  }

  /**
   What the way down leaves of the tables: all rows by block, and all ordered
   rows of mainchain blocks below height `h`.
   */
  ghost predicate Keeps(env: Env, s: Side.SideTips, t: Side.SideTips, h: nat) {
    && t.tips == s.tips && t.ordered.Keys <= s.ordered.Keys
    && forall x {:trigger Kept(env, s, t, h, x)} :: Kept(env, s, t, h, x)
  }

  ghost predicate Kept(env: Env, s: Side.SideTips, t: Side.SideTips, h: nat, x: Side.TipInfo) {
    x in s.ordered && x.main in env.c.main.heights && env.c.main.heights[x.main] < h ==> x in t.ordered
  }

  lemma KeepsAll(env: Env, s: Side.SideTips, h: nat)
    ensures Keeps(env, s, s, h)
  {
    assert forall x :: Kept(env, s, s, h, x);
  }

  lemma DownKeeps(env: Env, s: Side.SideTips, t: Side.SideTips)
    requires env.Valid() && env.Tracks(t) && t.tip.Some? && env.Down(t).Ok?
    requires Keeps(env, s, t, env.c.main.heights[t.tip.value.hash] + 1)
    ensures Keeps(env, s, env.Down(t).value, env.c.main.heights[t.tip.value.hash])
  {
    var e, h := env.Down(t).value, env.c.main.heights[t.tip.value.hash];
    forall x {:trigger Kept(env, s, e, h, x)}
      ensures Kept(env, s, e, h, x)
    {
      assert Kept(env, s, t, h + 1, x);
    }
  }

  /** The rows a block needs are those that were there at the start. */
  lemma CanDropLater(env: Env, s: Side.SideTips, t: Side.SideTips, m: MainHash)
    requires m in env.c.main.heights && Keeps(env, s, t, env.c.main.heights[m] + 1)
    ensures CanDrop(env, t, m) <==> CanDrop(env, s, m)
  {
    if m in env.c.infos && env.c.infos[m].Some? && env.c.infos[m].value in s.tips {
      assert Kept(env, s, t, env.c.main.heights[m] + 1, s.tips[env.c.infos[m].value]);
    }
  }

  /** The state after `n` disconnects. */
  ghost predicate Descended(env: Env, s: Side.SideTips, n: nat, t: Side.SideTips)
    requires env.Valid() && env.Tracks(s) && s.tip.Some?
  {
    && n <= env.c.main.heights[s.tip.value.hash] + 1
    && env.Downs(s, n) == Ok(t) && env.Tracks(t) && t.tip == AtDepth(env, s.tip, n)
    && Keeps(env, s, t, env.c.main.heights[s.tip.value.hash] + 1 - n)
  }

  lemma DescendOne(env: Env, s: Side.SideTips, n: nat, t: Side.SideTips)
    requires env.Valid() && env.Tracks(s) && s.tip.Some? && Descended(env, s, n, t)
             && n <= env.c.main.heights[s.tip.value.hash]
    ensures env.Downs(s, n + 1).Ok? <==> CanDropAt(env, s, n)
    ensures CanDropAt(env, s, n) ==> Descended(env, s, n + 1, env.Downs(s, n + 1).value)
  {
    var m := env.c.main.Tree().Up(s.tip.value.hash, n).value;
    assert t.tip == Some(env.c.main.headers[m]);
    CanDropLater(env, s, t, m);
    DownExactly(env, t);
    if env.Down(t).Ok? {
      DownMoves(env, t);
      DownKeeps(env, s, t);
      env.c.main.Tree().UpPlus(s.tip.value.hash, n, 1);
    }
  }

  /** The first `n` blocks on the way down. */
  ghost predicate CanDropTo(env: Env, s: Side.SideTips, n: nat)
    requires env.Valid() && env.Tracks(s) && s.tip.Some? && n <= env.c.main.heights[s.tip.value.hash] + 1
  {
    forall i: nat | i < n :: CanDropAt(env, s, i)
  }

  /** `n` disconnects succeed exactly if nothing that they need is missing, and then keep what later ones need. */
  ghost predicate DownTo(env: Env, s: Side.SideTips, n: nat)
    requires env.Valid() && env.Tracks(s) && s.tip.Some? && n <= env.c.main.heights[s.tip.value.hash] + 1
  {
    && (env.Downs(s, n).Ok? <==> CanDropTo(env, s, n))
    && (env.Downs(s, n).Ok? ==> Descended(env, s, n, env.Downs(s, n).value))
  }

  lemma DownToStart(env: Env, s: Side.SideTips)
    requires env.Valid() && env.Tracks(s) && s.tip.Some?
    ensures DownTo(env, s, 0)
  {
    KeepsAll(env, s, env.c.main.heights[s.tip.value.hash] + 1);
    assert env.c.main.Tree().Up(s.tip.value.hash, 0) == Some(s.tip.value.hash);
  }

  lemma DownToNext(env: Env, s: Side.SideTips, n: nat)
    requires env.Valid() && env.Tracks(s) && s.tip.Some? && n <= env.c.main.heights[s.tip.value.hash]
             && DownTo(env, s, n)
    ensures DownTo(env, s, n + 1)
  {
    assert CanDropTo(env, s, n + 1) <==> CanDropTo(env, s, n) && CanDropAt(env, s, n);
    if env.Downs(s, n).Ok? {
      DescendOne(env, s, n, env.Downs(s, n).value);
    }
  }

  lemma AllDownTo(env: Env, s: Side.SideTips, n: nat)
    requires env.Valid() && env.Tracks(s) && s.tip.Some? && n <= env.c.main.heights[s.tip.value.hash] + 1
    ensures DownTo(env, s, n)
  {
    var h := env.c.main.heights[s.tip.value.hash];
    var p := (i: nat) => i <= h + 1 ==> DownTo(env, s, i);
    DownToStart(env, s);
    forall i: nat {:trigger Counts(p, i)}
      ensures Counts(p, i)
    {
      if i <= h && DownTo(env, s, i) {
        DownToNext(env, s, i);
      }
    }
    CountUp(p, n);
  }

  /**
   The whole way down succeeds exactly when, at the start, every block on it has
   an info and names no sidechain block or a tracked one, which must also be in
   the ordered table if this block had put it there.
   */
  lemma DownsExactly(env: Env, s: Side.SideTips, n: nat)
    requires env.Valid() && env.Tracks(s) && s.tip.Some? && n <= env.c.main.heights[s.tip.value.hash] + 1
    ensures env.Downs(s, n).Ok? <==> forall i: nat | i < n :: CanDropAt(env, s, i)
  {
    AllDownTo(env, s, n);
  }

  // ---- the way up ----

  /** Every commitment to a block with a body has been judged. */
  ghost predicate Judged(env: Env) {
    forall m | m in env.c.infos && env.c.infos[m].Some? && env.c.infos[m].value in env.bodies ::
      JudgedAt(env, env.c.infos[m].value, m)
  }

  ghost predicate JudgedAt(env: Env, b: BlockHash, m: MainHash) {
    b in env.c.side.headers && b in env.bmm && m in env.bmm[b]
  }

  /** The next block up. */
  predicate IsNext(env: Env, s: Side.SideTips, m: MainHash) {
    && m in env.c.main.headers && env.c.main.headers[m].prev == Side.TipHash(s)
    && (s.tip.Some? ==> env.c.main.headers[m].height == s.tip.value.height + 1)
  }

  lemma UpExactly(env: Env, s: Side.SideTips, m: MainHash)
    requires env.Valid() && Judged(env) && IsNext(env, s, m)
    ensures env.Up(s, m).Ok? <==> m in env.c.infos
  {
    if m in env.c.infos && env.c.infos[m].Some? && env.c.infos[m].value in env.bodies {
      assert JudgedAt(env, env.c.infos[m].value, m);
    }
  }

  /** The blocks ahead follow one another. */
  lemma NextAhead(env: Env, s: Side.SideTips, target: MainHash, ms: seq<MainHash>, n: nat, t: Side.SideTips)
    requires env.Valid() && Below(env, s, target, ms) && n < |ms| && OnGround(env, s, target)
    requires t.tip == if n == 0 then s.tip else Some(env.c.main.headers[ms[n - 1]])
    ensures IsNext(env, t, ms[n])
  {
    var main := env.c.main.Tree();
    assert main.Linked(ms[n]) && main.IsAncestor(ms[n], target);
    if main.parent[ms[n]].Some? {
      var p := main.parent[ms[n]].value;
      main.AncestorParent(ms[n]);
      main.AncestorTransitive(p, ms[n], target);
      if n > 0 {
        main.AncestorUnique(p, ms[n - 1], target);
      } else {
        main.AncestorUnique(p, s.tip.value.hash, target);
      }
    }
  }

  /** The tracked tip is an ancestor of the target. */
  ghost predicate OnGround(env: Env, s: Side.SideTips, target: MainHash)
    requires env.Valid()
  {
    target in env.c.main.headers && (s.tip.Some? ==> env.c.main.Tree().IsAncestor(s.tip.value.hash, target))
  }

  /** The setting of a way up. */
  ghost predicate CanClimb(env: Env, s: Side.SideTips, target: MainHash, ms: seq<MainHash>) {
    env.Valid() && Judged(env) && Below(env, s, target, ms) && OnGround(env, s, target)
  }

  /** The state after `n` connects. */
  ghost predicate Climbed(env: Env, s: Side.SideTips, ms: seq<MainHash>, n: nat, t: Side.SideTips)
    requires env.Valid() && n <= |ms| && forall i | 0 <= i < |ms| :: ms[i] in env.c.main.headers
  {
    env.Ups(s, ms, n) == Ok(t) && t.tip == if n == 0 then s.tip else Some(env.c.main.headers[ms[n - 1]])
  }

  lemma ClimbOne(env: Env, s: Side.SideTips, target: MainHash, ms: seq<MainHash>, n: nat, t: Side.SideTips)
    requires CanClimb(env, s, target, ms) && n < |ms| && Climbed(env, s, ms, n, t)
    ensures env.Ups(s, ms, n + 1).Ok? <==> ms[n] in env.c.infos
    ensures ms[n] in env.c.infos ==> Climbed(env, s, ms, n + 1, env.Ups(s, ms, n + 1).value)
  {
    NextAhead(env, s, target, ms, n, t);
    UpExactly(env, t, ms[n]);
  }

  /** The infos of the first `n` blocks are stored. */
  predicate HaveInfos(env: Env, ms: seq<MainHash>, n: nat)
    requires n <= |ms|
  {
    n == 0 || (HaveInfos(env, ms, n - 1) && ms[n - 1] in env.c.infos)
  }

  /** With all commitments judged, the whole way up succeeds exactly when the info of every block ahead is stored. */
  lemma {:induction false} UpsExactly(env: Env, s: Side.SideTips, target: MainHash, ms: seq<MainHash>, n: nat)
    requires CanClimb(env, s, target, ms) && n <= |ms|
    ensures env.Ups(s, ms, n).Ok? <==> HaveInfos(env, ms, n)
    ensures env.Ups(s, ms, n).Ok? ==> Climbed(env, s, ms, n, env.Ups(s, ms, n).value)
    decreases n
  {
    if n > 0 {
      UpsExactly(env, s, target, ms, n - 1);
      if env.Ups(s, ms, n - 1).Ok? {
        ClimbOne(env, s, target, ms, n - 1, env.Ups(s, ms, n - 1).value);
      }
    }
  }

  lemma {:induction false} HaveInfosBelow(env: Env, ms: seq<MainHash>, n: nat)
    requires n <= |ms| && forall i | 0 <= i < n :: ms[i] in env.c.infos
    ensures HaveInfos(env, ms, n)
  {
    if n > 0 {
      HaveInfosBelow(env, ms, n - 1);
    }
  }

  /** Infos are stored ancestors first, so the target's info is enough. */
  lemma AllInfos(env: Env, target: MainHash, from: nat)
    requires env.Valid() && target in env.c.main.headers
    ensures var ms := Rising(env.c.main.Tree(), target, from);
            HaveInfos(env, ms, |ms|) <==> ms == [] || target in env.c.infos
  {
    var ms := Rising(env.c.main.Tree(), target, from);
    if ms != [] {
      env.c.main.Tree().AncestorDepth(ms[|ms| - 1], target);
      if target in env.c.infos {
        forall i | 0 <= i < |ms|
          ensures ms[i] in env.c.infos
        {
          InfoAncestors(env.c.main, env.c.infos, ms[i], target);
        }
        HaveInfosBelow(env, ms, |ms|);
      }
    }
  }

  // ---- both ways ----

  /** Nothing on the way down is missing. */
  ghost predicate WayDownClear(env: Env, s: Side.SideTips, n: nat)
    requires env.Valid() && env.Tracks(s)
             && (if s.tip.None? then n == 0 else n <= env.c.main.heights[s.tip.value.hash] + 1)
  {
    s.tip.Some? ==> CanDropTo(env, s, n)
  }

  lemma WayDownExactly(env: Env, s: Side.SideTips, target: MainHash)
    requires env.Valid() && env.Tracks(s) && target in env.c.main.headers
    ensures var n := env.Depth(s.tip, target);
            && (env.Downs(s, n).Ok? <==> WayDownClear(env, s, n))
            && (env.Downs(s, n).Ok? ==> Below(env, env.Downs(s, n).value, target, env.Ahead(s.tip, target))
                                        && OnGround(env, env.Downs(s, n).value, target))
  {
    var n := env.Depth(s.tip, target);
    if s.tip.Some? {
      AllDownTo(env, s, n);
      if env.Downs(s, n).Ok? {
        LandsWell(env, s, target, env.Downs(s, n).value);
      }
    }
  }

  lemma LandsWell(env: Env, s: Side.SideTips, target: MainHash, t: Side.SideTips)
    requires env.Valid() && env.Tracks(s) && s.tip.Some? && target in env.c.main.headers
    requires env.Tracks(t) && t.tip == AtDepth(env, s.tip, env.Depth(s.tip, target))
    ensures Below(env, t, target, env.Ahead(s.tip, target)) && OnGround(env, t, target)
  {
    var a := s.tip.value.hash;
    if env.Shared(a, target) {
      LandsOnFork(env, a, target);
      LandedAt(env, t, target, env.Fork(a, target));
    } else {
      LandedNowhere(env, t, target);
    }
  }

  lemma LandedAt(env: Env, t: Side.SideTips, target: MainHash, x: MainHash)
    requires env.Valid() && env.Tracks(t) && x in env.c.main.headers && target in env.c.main.headers
    requires t.tip == Some(env.c.main.headers[x]) && env.c.main.Tree().IsAncestor(x, target)
    ensures Below(env, t, target, Rising(env.c.main.Tree(), target, env.c.main.heights[x] + 1))
            && OnGround(env, t, target)
  {
    env.c.main.Tree().AncestorDepth(x, target);
  }

  lemma LandedNowhere(env: Env, t: Side.SideTips, target: MainHash)
    requires env.Valid() && env.Tracks(t) && t.tip.None? && target in env.c.main.headers
    ensures Below(env, t, target, Rising(env.c.main.Tree(), target, 0)) && OnGround(env, t, target)
  {
  }

  /** The walk down ends at the last common ancestor. */
  lemma LandsOnFork(env: Env, a: MainHash, target: MainHash)
    requires env.Valid() && a in env.c.main.headers && env.Shared(a, target)
    ensures var x := env.Fork(a, target);
            && x in env.c.main.headers && env.c.main.Tree().IsAncestor(x, target)
            && env.c.main.Tree().Up(a, env.c.main.heights[a] - env.c.main.heights[x]) == Some(x)
  {
    env.c.main.Tree().AncestorDepth(env.Fork(a, target), a);
  }

  /**
   With all commitments judged, the tracked tip can be moved to a stored target
   exactly when the way down is clear and, if there is a way up, the target's
   info is stored.
   */
  lemma SyncsExactly(env: Env, s: Side.SideTips, target: MainHash)
    requires env.Valid() && env.Tracks(s) && Judged(env) && target in env.c.main.headers
    ensures var n, ms := env.Depth(s.tip, target), env.Ahead(s.tip, target);
            env.Downs(s, n).Ok? && env.Ups(env.Downs(s, n).value, ms, |ms|).Ok?
            <==> WayDownClear(env, s, n) && (ms == [] || target in env.c.infos)
  {
    var n, ms := env.Depth(s.tip, target), env.Ahead(s.tip, target);
    WayDownExactly(env, s, target);
    if env.Downs(s, n).Ok? {
      var t := env.Downs(s, n).value;
      UpsExactly(env, t, target, ms, |ms|);
      AllInfos(env, target, if t.tip.None? then 0 else t.tip.value.height + 1);
    }
  }
}
