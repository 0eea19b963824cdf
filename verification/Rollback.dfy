/**
 Values that remember their history: each entry is stamped with the transaction
 and the height that wrote it. There is always at least one entry.
 */
module Rollback {
  import opened Wrappers
  import opened ChainTypes

  datatype Stamped<T> = Stamped(data: T, txid: Txid, height: nat)

  datatype RollBack<T> = RollBack(first: Stamped<T>, rest: seq<Stamped<T>>) {

    function Latest(): Stamped<T> {
      if rest == [] then first else rest[|rest| - 1]
    }

    /** Add a value as the new most recent one. */
    function Push(data: T, txid: Txid, height: nat): RollBack<T> {
      RollBack(first, rest + [Stamped(data, txid, height)])
    }

    /** Take off the most recent value; the first value always stays. */
    function Pop(): (RollBack<T>, Option<Stamped<T>>) {
      if rest == [] then (this, None)
      else (RollBack(first, rest[..|rest| - 1]), Some(rest[|rest| - 1]))
    }

    /** The value as it was at a block height: the last entry written no later. */
    function AtBlockHeight(height: nat): Option<Stamped<T>>
      decreases |rest|
    {
      if rest == [] then if first.height <= height then Some(first) else None
      else if Latest().height <= height then Some(Latest())
      else RollBack(first, rest[..|rest| - 1]).AtBlockHeight(height)
    }

    lemma PopUndoesPush(data: T, txid: Txid, height: nat)
      ensures Push(data, txid, height).Pop() == (this, Some(Stamped(data, txid, height)))
      ensures Push(data, txid, height).Latest() == Stamped(data, txid, height)
    {
      assert (rest + [Stamped(data, txid, height)])[..|rest|] == rest;
    }

    /** Pushing at a later height leaves every answer about an earlier height as it was. */
    lemma PastUnchanged(data: T, txid: Txid, height: nat, past: nat)
      requires past < height
      ensures Push(data, txid, height).AtBlockHeight(past) == AtBlockHeight(past)
    {
      assert (rest + [Stamped(data, txid, height)])[..|rest|] == rest;
    }

    /** All entries, oldest first. */
    function Entries(): seq<Stamped<T>> {
      [first] + rest
    }

    /** The answer at a height is the last entry stamped at or below it; there is none exactly when all are later. */
    lemma {:induction false} AtBlockHeightIsLast(height: nat)
      ensures AtBlockHeight(height) == None <==> forall i | 0 <= i < |Entries()| :: Entries()[i].height > height
      ensures AtBlockHeight(height).Some? ==>
                exists i :: && 0 <= i < |Entries()| && Entries()[i] == AtBlockHeight(height).value
                            && Entries()[i].height <= height
                            && forall j | i < j < |Entries()| :: Entries()[j].height > height
      decreases |rest|
    {
      if rest != [] {
        var older := RollBack(first, rest[..|rest| - 1]);
        older.AtBlockHeightIsLast(height);
        assert Entries() == older.Entries() + [Latest()];
        if Latest().height <= height {
          assert Entries()[|Entries()| - 1] == Latest();
        } else if older.AtBlockHeight(height).Some? {
          var i :| && 0 <= i < |older.Entries()| && older.Entries()[i] == older.AtBlockHeight(height).value
                   && older.Entries()[i].height <= height
                   && forall j | i < j < |older.Entries()| :: older.Entries()[j].height > height;
          assert Entries()[i] == AtBlockHeight(height).value;
        } else {
          forall i | 0 <= i < |Entries()|
            ensures Entries()[i].height > height
          {
            assert i < |older.Entries()| ==> older.Entries()[i].height > height;
          }
        }
      } else {
        assert Entries()[0] == first;
      }
    }
  }

  function NewRollBack<T>(data: T, txid: Txid, height: nat): RollBack<T> {
    RollBack(Stamped(data, txid, height), [])
  }
}
