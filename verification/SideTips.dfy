/**
 The mainchain tip that sidechain tips are tracked for, and the two tables of
 sidechain tips: by block, and ordered by height and work.
 */
module SideTips {
  import opened Wrappers
  import opened Arith
  import opened ChainTypes

  datatype TipInfo = TipInfo(height: nat, work: nat, main: MainHash)

  datatype Error =
    | NoMainchainTip
    | InvalidMainchainParent(expected: MainHash)
    | InvalidTipHeight(mainHeight: nat)
    | MissingSidechainParent(parent: BlockHash)
    | MissingSidechainTip(missing: BlockHash)
    | Panic

  datatype SideTips = SideTips(
    tip: Option<MainHeader>, work: nat, tips: map<BlockHash, TipInfo>, ordered: map<TipInfo, BlockHash>)

  function TipHash(s: SideTips): MainHash {
    match s.tip case None => ZERO_HASH case Some(i) => i.hash
  }

  /** Record a sidechain tip, unless its block already has one. */
  function ConnectSide(s: SideTips, main: MainHash, work: nat, h: Header): Result<SideTips, Error> {
    if h.prevSide.Some? && h.prevSide.value !in s.tips then Err(MissingSidechainParent(h.prevSide.value))
    else if h.hash in s.tips then Ok(s)
    else Ok(s.(tips := s.tips[h.hash := NewTip(s, main, work, h)],
               ordered := s.ordered[NewTip(s, main, work, h) := h.hash]))
  }

  function NewTip(s: SideTips, main: MainHash, work: nat, h: Header): TipInfo
    requires h.prevSide.Some? ==> h.prevSide.value in s.tips
  {
    TipInfo(if h.prevSide.None? then 0 else Min(s.tips[h.prevSide.value].height + 1, U32_LIMIT - 1), work, main)
  }

  function ConnectMain(s: SideTips, i: MainHeader, commitment: Option<Header>): Result<SideTips, Error> {
    if i.prev != TipHash(s) then Err(InvalidMainchainParent(TipHash(s)))
    else if s.tip.Some? && i.height != s.tip.value.height + 1 then Err(InvalidTipHeight(s.tip.value.height + 1))
    else
      var t :- if commitment.None? then Ok(s) else ConnectSide(s, i.hash, s.work + i.work, commitment.value);
      Ok(t.(tip := Some(i), work := s.work + i.work))
  }

  /** The tip that remains when `i` is disconnected and the caller says that `prev` comes before it. */
  function TipBefore(i: MainHeader, prev: Option<MainHeader>): Result<Option<MainHeader>, Error> {
    match prev
    case Some(p) =>
      if p.hash != i.prev then Err(InvalidMainchainParent(i.prev))
      else if p.height + 1 != i.height then Err(InvalidTipHeight(i.height))
      else if i.prev != ZERO_HASH then Ok(prev) else Ok(None)
    case None => if i.prev == ZERO_HASH then Ok(None) else Err(InvalidMainchainParent(i.prev))
  }

  /** Take a sidechain tip off the ordered table if this mainchain block had put it there. */
  function DropSide(s: SideTips, main: MainHash, b: BlockHash): Result<SideTips, Error> {
    if b !in s.tips then Err(MissingSidechainTip(b))
    else if s.tips[b].main != main then Ok(s)
    else if s.tips[b] !in s.ordered then Err(MissingSidechainTip(b))
    else Ok(s.(ordered := s.ordered - {s.tips[b]}))
  }

  function DisconnectMain(s: SideTips, prev: Option<MainHeader>, commitment: Option<BlockHash>)
    : Result<SideTips, Error>
  {
    if s.tip.None? then Err(NoMainchainTip)
    else
      var i := s.tip.value;
      var before :- TipBefore(i, prev);
      var t :- if commitment.None? then Ok(s) else DropSide(s, i.hash, commitment.value);
      if s.work < i.work then Err(Panic) else Ok(t.(tip := before, work := s.work - i.work))
  }

  /**
   The row of a sidechain tip that mainchain block `i` records: one above its
   parent's, at the work reached with `i`.
   */
  ghost predicate RowFor(s: SideTips, i: MainHeader, h: Header, row: TipInfo) {
    && row.main == i.hash && row.work == s.work + i.work
    && match h.prevSide
       case None => row.height == 0
       case Some(p) => p in s.tips && row.height == Min(s.tips[p].height + 1, U32_LIMIT - 1)
  }

  /**
   A mainchain block connects exactly if it follows the tip and a sidechain block
   that it commits to has a recorded parent; it records that block, in both
   tables, exactly if it is not recorded yet.
   */
  lemma ConnectDoes(s: SideTips, i: MainHeader, commitment: Option<Header>)
    ensures ConnectMain(s, i, commitment).Ok? <==>
            && i.prev == TipHash(s) && (s.tip.Some? ==> i.height == s.tip.value.height + 1)
            && (commitment.Some? && commitment.value.prevSide.Some? ==> commitment.value.prevSide.value in s.tips)
    ensures ConnectMain(s, i, commitment).Ok? ==>
              var t := ConnectMain(s, i, commitment).value;
              && t.tip == Some(i) && t.work == s.work + i.work
              && if commitment.None? || commitment.value.hash in s.tips then t.tips == s.tips && t.ordered == s.ordered
                 else
                   && commitment.value.hash in t.tips
                   && var row := t.tips[commitment.value.hash];
                   && RowFor(s, i, commitment.value, row)
                   && t.tips == s.tips[commitment.value.hash := row]
                   && t.ordered == s.ordered[row := commitment.value.hash]
  {
  }

  /** Mainchain block `i` recorded `b`. */
  ghost predicate RecordedBy(s: SideTips, i: MainHeader, b: BlockHash) {
    b in s.tips && s.tips[b].main == i.hash
  }

  /**
   A block is disconnected exactly if there is one, the caller names the block
   before it, the block that it names is recorded, in the ordered table too if it
   recorded it itself, and its work is part of the sum. Only the ordered row of a
   block that it recorded goes.
   */
  lemma DisconnectDoes(s: SideTips, prev: Option<MainHeader>, commitment: Option<BlockHash>)
    ensures DisconnectMain(s, prev, commitment).Ok? <==>
            && s.tip.Some?
            && var i := s.tip.value;
            && (if prev.None? then i.prev == ZERO_HASH
                else prev.value.hash == i.prev && prev.value.height + 1 == i.height)
            && (commitment.Some? ==> commitment.value in s.tips)
            && (commitment.Some? && RecordedBy(s, i, commitment.value) ==> s.tips[commitment.value] in s.ordered)
            && i.work <= s.work
    ensures DisconnectMain(s, prev, commitment).Ok? ==>
              var i, t := s.tip.value, DisconnectMain(s, prev, commitment).value;
              && t.tip == (if i.prev == ZERO_HASH then None else prev) && t.work == s.work - i.work && t.tips == s.tips
              && t.ordered == if commitment.Some? && RecordedBy(s, i, commitment.value)
                              then s.ordered - {s.tips[commitment.value]} else s.ordered
  {
  }

  /** The previous tip precedes `i`. */
  predicate Follows(s: SideTips, i: MainHeader) {
    && i.prev == TipHash(s) && (s.tip.Some? ==> i.height == s.tip.value.height + 1 && s.tip.value.hash != ZERO_HASH)
  }

  /**
   Disconnecting a mainchain block undoes connecting it exactly when it recorded
   no sidechain tip of its own: a tip that it recorded stays in the table by
   block although it leaves the ordered one.
   */
  lemma DisconnectUndoes(s: SideTips, i: MainHeader, commitment: Option<Header>)
    requires Follows(s, i) && ConnectMain(s, i, commitment).Ok?
    ensures DisconnectMain(ConnectMain(s, i, commitment).value, s.tip,
                           if commitment.None? then None else Some(commitment.value.hash)) == Ok(s)
            <==> commitment.None? || (commitment.value.hash in s.tips && s.tips[commitment.value.hash].main != i.hash)
  {
    var t := ConnectMain(s, i, commitment).value;
    if commitment.Some? {
      var b := commitment.value.hash;
      assert b in t.tips;
      if b in s.tips && s.tips[b].main == i.hash && s.tips[b] in s.ordered {
        assert s.tips[b] !in s.ordered - {s.tips[b]};
      }
    }
  }

  /** A sidechain tip that a mainchain block recorded. */
  predicate Records(s: SideTips, i: MainHeader, h: Header) {
    && Follows(s, i) && ConnectMain(s, i, Some(h)).Ok? && h.hash !in s.tips
  }

  /**
   After a mainchain block that recorded a sidechain tip is disconnected and
   connected again, the tip is missing from the ordered table, and the block can
   no longer be disconnected.
   */
  lemma ReconnectedTipIsLost(s: SideTips, i: MainHeader, h: Header)
    requires Records(s, i, h)
    ensures var down := DisconnectMain(ConnectMain(s, i, Some(h)).value, s.tip, Some(h.hash));
            && down.Ok? && ConnectMain(down.value, i, Some(h)).Ok?
            && var again := ConnectMain(down.value, i, Some(h)).value;
            && h.hash in again.tips && again.tips[h.hash] !in again.ordered
            && DisconnectMain(again, s.tip, Some(h.hash)) == Err(MissingSidechainTip(h.hash))
  {
    var info := NewTip(s, i.hash, s.work + i.work, h);
    var t := ConnectMain(s, i, Some(h)).value;
    assert t.tips[h.hash] == info && info in t.ordered;
  }
}
