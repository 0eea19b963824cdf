/** Runs of asset operations and last-in-first-out reverts. */
module BitAssetRuns {
  import opened Wrappers
  import opened ChainTypes
  import opened Rollback
  import opened BitAssets
  import opened KeyOrder

  datatype Op =
    | ReserveOp(txid: Txid, commitment: int, height: nat)
    | RegisterOp(id: BitAssetId, spent: seq<(Txid, int)>, implied: int, initial: PlainData, supply: nat, txid: Txid,
                 height: nat)
    | MintOp(id: BitAssetId, amount: nat, txid: Txid, height: nat)
    | UpdateOp(id: BitAssetId, updates: Updates, txid: Txid, height: nat)

  function Apply(t: Tables, op: Op): Result<Tables, Error> {
    match op
    case ReserveOp(txid, c, _) => Ok(PutReservation(t, txid, c))
    case RegisterOp(id, spent, implied, d, supply, txid, height) =>
         Register(t, id, spent, implied, d, supply, txid, height)
    case MintOp(id, amount, txid, height) => Mint(t, id, amount, txid, height)
    case UpdateOp(id, u, txid, height) => UpdateData(t, id, u, txid, height)
  }

  function Undo(t: Tables, op: Op): Result<Tables, Error> {
    match op
    case ReserveOp(txid, _, _) => DeleteReservation(t, txid)
    case RegisterOp(id, spent, implied, _, _, _, _) => RevertRegister(t, id, spent, implied)
    case MintOp(id, amount, _, _) => RevertMint(t, id, amount)
    case UpdateOp(id, u, txid, height) => RevertUpdate(t, id, u, txid, height)
  }

  /**
   The ids an operation creates are new, stored reservations carry the
   commitments of the outputs spent, and the number of assets is one at which
   the next number is not taken.
   */
  predicate Fresh(t: Tables, op: Op) {
    && (op.ReserveOp? ==> op.txid !in t.reservations)
    && (op.RegisterOp? ==>
          && op.id !in t.toSeq && op.id !in t.data && CountFits(|t.toSeq|)
          && forall r | r in op.spent && r.0 in t.reservations :: t.reservations[r.0] == r.1)
  }

  lemma UndoUndoes(t: Tables, op: Op)
    requires Bijection(t) && Fresh(t, op) && Apply(t, op).Ok?
    ensures Undo(Apply(t, op).value, op) == Ok(t)
  {
    match op
    case ReserveOp(txid, c, _) => DeleteReservationUndoes(t, txid, c);
    case RegisterOp(id, spent, implied, d, supply, txid, height) =>
      NextSeqIsCount(t);
      RevertRegisterUndoes(t, id, spent, implied, d, supply, txid, height);
    case MintOp(id, amount, txid, height) => RevertMintUndoes(t, id, amount, txid, height);
    case UpdateOp(id, u, txid, height) => RevertUpdateUndoes(t, id, u, txid, height);
  }

  // ---- replaying a stack of operations ----

  function Replay(t: Tables, ops: seq<Op>): Result<Tables, Error>
    decreases |ops|
  {
    if ops == [] then Ok(t)
    else var d :- Replay(t, ops[..|ops| - 1]); Apply(d, ops[|ops| - 1])
  }

  /** Every operation succeeds and is fresh where it is applied. */
  predicate Replayable(t: Tables, ops: seq<Op>)
    decreases |ops|
  {
    ops == [] ||
    (&& Replayable(t, ops[..|ops| - 1]) && Replay(t, ops[..|ops| - 1]).Ok?
     && Fresh(Replay(t, ops[..|ops| - 1]).value, ops[|ops| - 1]) && Replay(t, ops).Ok?)
  }

  lemma ReplayPush(t: Tables, ops: seq<Op>, op: Op)
    requires Replayable(t, ops) && Replay(t, ops).Ok?
    requires Fresh(Replay(t, ops).value, op) && Apply(Replay(t, ops).value, op).Ok?
    ensures Replayable(t, ops + [op]) && Replay(t, ops + [op]) == Apply(Replay(t, ops).value, op)
  {
    assert (ops + [op])[..|ops|] == ops;
  }

  // ---- a machine that applies and undoes ----

  datatype Step = Do(op: Op) | UndoLast

  datatype Machine = Machine(tables: Tables, stack: seq<Op>)

  function Exec(t: Tables, steps: seq<Step>): Result<Machine, Error>
    decreases |steps|
  {
    if steps == [] then Ok(Machine(t, []))
    else var m :- Exec(t, steps[..|steps| - 1]); Advance(m, steps[|steps| - 1])
  }

  function Advance(m: Machine, s: Step): Result<Machine, Error> {
    match s
    case Do(op) => (match Apply(m.tables, op) case Ok(t) => Ok(Machine(t, m.stack + [op])) case Err(e) => Err(e))
    case UndoLast =>
      if m.stack == [] then Err(Panic)
      else match Undo(m.tables, m.stack[|m.stack| - 1])
           case Ok(t) => Ok(Machine(t, m.stack[..|m.stack| - 1]))
           case Err(e) => Err(e)
  }

  /** Each operation of the run is fresh when it is applied. */
  predicate FreshRun(t: Tables, steps: seq<Step>)
    decreases |steps|
  {
    steps == [] ||
    (&& FreshRun(t, steps[..|steps| - 1])
     && (Exec(t, steps[..|steps| - 1]).Ok? && steps[|steps| - 1].Do? ==>
           Fresh(Exec(t, steps[..|steps| - 1]).value.tables, steps[|steps| - 1].op)))
  }

  /** After any run the tables are what the operations not yet undone produce, as if the others had never happened. */
  lemma {:induction false} ExecReplays(t: Tables, steps: seq<Step>)
    requires Bijection(t) && FreshRun(t, steps) && Exec(t, steps).Ok?
    ensures var m := Exec(t, steps).value;
            Replayable(t, m.stack) && Replay(t, m.stack) == Ok(m.tables)
    decreases |steps|
  {
    if steps != [] {
      ExecReplays(t, steps[..|steps| - 1]);
      var m := Exec(t, steps[..|steps| - 1]).value;
      AdvanceReplays(t, m, steps[|steps| - 1]);
    }
  }

  lemma AdvanceReplays(t: Tables, m: Machine, s: Step)
    requires Bijection(t) && Replayable(t, m.stack) && Replay(t, m.stack) == Ok(m.tables)
    requires s.Do? ==> Fresh(m.tables, s.op)
    requires Advance(m, s).Ok?
    ensures var n := Advance(m, s).value; Replayable(t, n.stack) && Replay(t, n.stack) == Ok(n.tables)
  {
    match s
    case Do(op) => ReplayPush(t, m.stack, op);
    case UndoLast => UndoLastWorks(t, m);
  }

  lemma UndoLastWorks(t: Tables, m: Machine)
    requires Bijection(t) && Replayable(t, m.stack) && Replay(t, m.stack) == Ok(m.tables) && m.stack != []
    ensures Replay(t, m.stack[..|m.stack| - 1]).Ok?
    ensures Advance(m, UndoLast) == Ok(Machine(Replay(t, m.stack[..|m.stack| - 1]).value, m.stack[..|m.stack| - 1]))
  {
    ReplayKeepsBijection(t, m.stack[..|m.stack| - 1]);
    UndoUndoes(Replay(t, m.stack[..|m.stack| - 1]).value, m.stack[|m.stack| - 1]);
  }

  /** As long as anything is left to undo, undoing succeeds. */
  lemma UndoNeverFails(t: Tables, steps: seq<Step>)
    requires Bijection(t) && FreshRun(t, steps) && Exec(t, steps).Ok? && Exec(t, steps).value.stack != []
    ensures Exec(t, steps + [UndoLast]).Ok?
  {
    ExecReplays(t, steps);
    UndoLastWorks(t, Exec(t, steps).value);
    assert (steps + [UndoLast])[..|steps|] == steps;
  }

  // ---- what every run keeps ----

  lemma {:induction false} ReplayKeepsBijection(t: Tables, ops: seq<Op>)
    requires Bijection(t) && Replayable(t, ops) && Replay(t, ops).Ok?
    ensures Bijection(Replay(t, ops).value)
    decreases |ops|
  {
    if ops != [] {
      ReplayKeepsBijection(t, ops[..|ops| - 1]);
      ApplyKeepsBijection(Replay(t, ops[..|ops| - 1]).value, ops[|ops| - 1]);
    }
  }

  lemma ApplyKeepsBijection(t: Tables, op: Op)
    requires Bijection(t) && Fresh(t, op) && Apply(t, op).Ok?
    ensures Bijection(Apply(t, op).value)
  {
    var e := Apply(t, op).value;
    match op
    case ReserveOp(_, _, _) =>
    case RegisterOp(id, spent, implied, d, supply, txid, height) =>
      RegisterKeepsBijection(t, id, spent, implied, d, supply, txid, height);
    case MintOp(id, _, _, _) => assert e.data.Keys == t.data.Keys;
    case UpdateOp(id, _, _, _) => assert e.data.Keys == t.data.Keys;
  }

  // ---- how many registrations keep the numbering ----

  /** The registrations in a stack of operations. */
  function Registered(ops: seq<Op>): Registrations
    decreases |ops|
  {
    if ops == [] then Nothing else Registered(ops[..|ops| - 1]).Plus(RegisteredBy(ops[|ops| - 1]))
  }

  function RegisteredBy(op: Op): Registrations {
    if op.RegisterOp? then Then(Nothing, op.id) else Nothing
  }

  lemma ApplyGrows(t: Tables, d: Tables, r: Registrations, op: Op)
    requires Grown(t, d, r) && Apply(d, op).Ok?
    ensures Grown(t, Apply(d, op).value, r.Plus(RegisteredBy(op)))
  {
    var e := Apply(d, op).value;
    if op.RegisterOp? {
      RegisterGrows(t, d, r, op.id, op.spent, op.implied, op.initial, op.supply, op.txid, op.height);
    } else {
      assert e.data.Keys == d.data.Keys;
      GrownOther(t, d, e, r);
    }
  }

  lemma {:induction false} ReplayGrows(t: Tables, ops: seq<Op>)
    requires Bijection(t) && Replay(t, ops).Ok?
    ensures Grown(t, Replay(t, ops).value, Registered(ops))
    decreases |ops|
  {
    if ops == [] {
      NothingGrown(t);
    } else {
      ReplayGrows(t, ops[..|ops| - 1]);
      ApplyGrows(t, Replay(t, ops[..|ops| - 1]).value, Registered(ops[..|ops| - 1]), ops[|ops| - 1]);
    }
  }

  /**
   After any operations every registration has added an asset, and numbers and
   assets are in bijection, exactly when the registered assets were new and
   distinct and every count on the way was one that fits.
   */
  lemma NumbersKeptExactly(t: Tables, ops: seq<Op>)
    requires Bijection(t) && Replay(t, ops).Ok?
    ensures var e := Replay(t, ops).value;
            Bijection(e) && |e.toSeq| == |t.toSeq| + Registered(ops).Count() <==> RegistrationsFit(t, Registered(ops))
  {
    ReplayGrows(t, ops);
    NumberingSizes(t);
    if Bijection(Replay(t, ops).value) {
      NumberingSizes(Replay(t, ops).value);
    }
  }

  /** From the empty tables that is up to 257 distinct assets; the next one takes the number of an older asset. */
  lemma NumbersKeptFromStart(ops: seq<Op>)
    requires Replay(Tables(map[], map[], map[], map[]), ops).Ok?
    ensures var e := Replay(Tables(map[], map[], map[], map[]), ops).value;
            var r := Registered(ops);
            Bijection(e) && |e.toSeq| == r.Count() <==> r.Count() <= 257 && r.Distinct()
  {
    NumbersKeptExactly(Tables(map[], map[], map[], map[]), ops);
    RegistrationsFitMeans(Tables(map[], map[], map[], map[]), Registered(ops));
    CountsFromZero(Registered(ops).Count());
  }

  /** Initial supply plus mints of one asset in a stack of operations. */
  function Issued(ops: seq<Op>, id: BitAssetId): nat
    decreases |ops|
  {
    if ops == [] then 0 else Issued(ops[..|ops| - 1], id) + IssuedBy(ops[|ops| - 1], id)
  }

  function IssuedBy(op: Op, id: BitAssetId): nat {
    match op
    case RegisterOp(x, _, _, _, supply, _, _) => if x == id then supply else 0
    case MintOp(x, amount, _, _) => if x == id then amount else 0
    case _ => 0
  }

  function SupplyOf(t: Tables, id: BitAssetId): nat {
    if id in t.data then t.data[id].Supply() else 0
  }

  lemma ApplyIssues(t: Tables, op: Op, id: BitAssetId)
    requires Fresh(t, op) && Apply(t, op).Ok?
    ensures SupplyOf(Apply(t, op).value, id) == SupplyOf(t, id) + IssuedBy(op, id)
  {
    if op.MintOp? {
      t.data[op.id].totalSupply.PopUndoesPush(t.data[op.id].Supply() + op.amount, op.txid, op.height);
    }
  }

  lemma {:induction false} ReplayIssues(t: Tables, ops: seq<Op>, id: BitAssetId)
    requires Replayable(t, ops) && Replay(t, ops).Ok?
    ensures SupplyOf(Replay(t, ops).value, id) == SupplyOf(t, id) + Issued(ops, id)
    decreases |ops|
  {
    if ops != [] {
      ReplayIssues(t, ops[..|ops| - 1], id);
      ApplyIssues(Replay(t, ops[..|ops| - 1]).value, ops[|ops| - 1], id);
    }
  }

  /** The data of an asset at a past height, if it existed. */
  function AnswerAt(t: Tables, id: BitAssetId, past: nat): Option<PlainData> {
    if id in t.data then t.data[id].AtBlockHeight(past) else None
  }

  lemma ApplyKeepsPast(t: Tables, op: Op, id: BitAssetId, past: nat)
    requires Fresh(t, op) && Apply(t, op).Ok? && past < op.height
    ensures AnswerAt(Apply(t, op).value, id, past) == AnswerAt(t, id, past)
  {
    if op.UpdateOp? {
      var d := t.data[op.id];
      FieldPastUnchanged(d.commitment, op.updates.commitment, op.txid, op.height, past);
      FieldPastUnchanged(d.socketV4, op.updates.socketV4, op.txid, op.height, past);
      FieldPastUnchanged(d.socketV6, op.updates.socketV6, op.txid, op.height, past);
      FieldPastUnchanged(d.encryptionKey, op.updates.encryptionKey, op.txid, op.height, past);
      FieldPastUnchanged(d.signingKey, op.updates.signingKey, op.txid, op.height, past);
    }
  }

  lemma {:induction false} ReplayKeepsPast(t: Tables, ops: seq<Op>, id: BitAssetId, past: nat)
    requires Replayable(t, ops) && Replay(t, ops).Ok? && forall op | op in ops :: past < op.height
    ensures AnswerAt(Replay(t, ops).value, id, past) == AnswerAt(t, id, past)
    decreases |ops|
  {
    if ops != [] {
      ReplayKeepsPast(t, ops[..|ops| - 1], id, past);
      ApplyKeepsPast(Replay(t, ops[..|ops| - 1]).value, ops[|ops| - 1], id, past);
    }
  }

  lemma {:induction false} StackFromSteps(t: Tables, steps: seq<Step>, op: Op)
    requires Exec(t, steps).Ok? && op in Exec(t, steps).value.stack
    ensures Do(op) in steps
    decreases |steps|
  {
    if steps != [] {
      var m := Exec(t, steps[..|steps| - 1]).value;
      if op in m.stack {
        StackFromSteps(t, steps[..|steps| - 1], op);
      }
    }
  }

  /**
   Over every run of fresh operations and last-in-first-out reverts: numbers and
   assets stay in bijection with 0, 1, ..., n - 1; the supply of each asset grows
   by what the operations not undone issued; and if all operations happen above
   a height, no answer about that height ever changes.
   */
  lemma RunsKeep(t: Tables, steps: seq<Step>, id: BitAssetId, past: nat)
    requires Bijection(t) && FreshRun(t, steps) && Exec(t, steps).Ok?
    ensures var m := Exec(t, steps).value;
            && Bijection(m.tables)
            && SupplyOf(m.tables, id) == SupplyOf(t, id) + Issued(m.stack, id)
            && ((forall op | Do(op) in steps :: past < op.height) ==>
                AnswerAt(m.tables, id, past) == AnswerAt(t, id, past))
  {
    var m := Exec(t, steps).value;
    ExecReplays(t, steps);
    ReplayKeepsBijection(t, m.stack);
    ReplayIssues(t, m.stack, id);
    if forall op | Do(op) in steps :: past < op.height {
      forall op | op in m.stack
        ensures past < op.height
      {
        StackFromSteps(t, steps, op);
      }
      ReplayKeepsPast(t, m.stack, id, past);
    }
  }
}
