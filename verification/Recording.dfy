/** When recording a transaction succeeds, and exactly what it then adds to the tables. */
module Recording {
  import opened Schema
  import opened Logging

  /** References to logs and txos that exist; a consequence of the foreign keys. */
  ghost predicate Referential(db: Db) {
    && (forall x :: x in db.inputs ==> x.0 in db.logs && x.1 in db.txos)
    && (forall x :: x in db.outputs ==> x.0 in db.logs && x.1 in db.txos)
  }

  // ----- Inputs -----

  /** Every input is in the table, and none is given twice. */
  predicate Known(txos: map<TxoId, Txo>, ins: seq<TxOut>) {
    && (forall i :: 0 <= i < |ins| ==> ins[i].id in txos)
    && (forall i, j :: 0 <= i < j < |ins| ==> ins[i].id != ins[j].id)
  }

  function Links(log: LogId, ins: seq<TxOut>): set<(LogId, TxoId)> {
    set i | 0 <= i < |ins| :: (log, ins[i].id)
  }

  lemma LinksLast(log: LogId, ins: seq<TxOut>)
    requires ins != []
    ensures Links(log, ins) == Links(log, ins[..|ins| - 1]) + {(log, ins[|ins| - 1].id)}
  {
    var init := ins[..|ins| - 1];
    forall x
      ensures x in Links(log, ins) <==> x in Links(log, init) + {(log, ins[|ins| - 1].id)}
    {
      if x in Links(log, init) {
        var i :| 0 <= i < |init| && x == (log, init[i].id);
        assert x == (log, ins[i].id);
      }
    }
  }

  lemma KnownLast(txos: map<TxoId, Txo>, log: LogId, ins: seq<TxOut>)
    requires ins != []
    ensures var init, last := ins[..|ins| - 1], ins[|ins| - 1];
      Known(txos, ins) <==> Known(txos, init) && last.id in txos && (log, last.id) !in Links(log, init)
  {
    var init, last := ins[..|ins| - 1], ins[|ins| - 1];
    assert forall i :: 0 <= i < |init| ==> init[i] == ins[i];
    assert (log, last.id) in Links(log, init) <==> exists i :: 0 <= i < |init| && init[i].id == last.id;
  }

  /** Linking succeeds exactly when every input is known, and then adds exactly their links. */
  lemma {:induction false} LinkInputsExact(db: Db, log: LogId, ins: seq<TxOut>)
    requires log in db.logs && forall x :: x in db.inputs ==> x.0 != log
    ensures var r := LinkInputs(db, log, ins);
      && (r.error.None? <==> Known(db.txos, ins))
      && (r.error.None? ==> r.db == db.(inputs := db.inputs + Links(log, ins)))
  {
    if ins == [] {
      assert Links(log, ins) == {};
    } else {
      LinkInputsExact(db, log, ins[..|ins| - 1]);
      LinksLast(log, ins);
      KnownLast(db.txos, log, ins);
      hide Known, Links;
    }
  }

  // ----- Outputs -----

  /** No output is in the table yet, and none is given twice. */
  predicate Fresh(txos: map<TxoId, Txo>, outs: seq<OutputTxo>) {
    && (forall i :: 0 <= i < |outs| ==> outs[i].txOut.id !in txos)
    && (forall i, j :: 0 <= i < j < |outs| ==> outs[i].txOut.id != outs[j].txOut.id)
  }

  function OutIds(outs: seq<OutputTxo>): set<TxoId> {
    set i | 0 <= i < |outs| :: outs[i].txOut.id
  }

  /** A row without an owner for every output. */
  function WithRows(txos: map<TxoId, Txo>, outs: seq<OutputTxo>): map<TxoId, Txo> {
    if outs == [] then txos
    else WithRows(txos, outs[..|outs| - 1])[outs[|outs| - 1].txOut.id := NewOutputRow(outs[|outs| - 1])]
  }

  /** A link to the log for every output. */
  function WithLinks(outputs: map<(LogId, TxoId), OutputLink>, log: LogId, outs: seq<OutputTxo>, isChange: bool)
    : map<(LogId, TxoId), OutputLink>
  {
    if outs == [] then outputs
    else
      var last := outs[|outs| - 1];
      WithLinks(outputs, log, outs[..|outs| - 1], isChange)[(log, last.txOut.id) := OutputLink(last.recipient, isChange)]
  }

  lemma FreshLast(txos: map<TxoId, Txo>, outs: seq<OutputTxo>)
    requires outs != []
    ensures var init, last := outs[..|outs| - 1], outs[|outs| - 1];
      && (Fresh(txos, outs) <==> Fresh(txos, init) && last.txOut.id !in txos && last.txOut.id !in OutIds(init))
      && OutIds(outs) == OutIds(init) + {last.txOut.id}
  {
    var init, last := outs[..|outs| - 1], outs[|outs| - 1];
    assert forall i :: 0 <= i < |init| ==> init[i] == outs[i];
    assert last.txOut.id in OutIds(init) <==> exists i :: 0 <= i < |init| && init[i].txOut.id == last.txOut.id;
    forall id
      ensures id in OutIds(outs) <==> id in OutIds(init) + {last.txOut.id}
    {
      if id in OutIds(init) {
        var i :| 0 <= i < |init| && id == init[i].txOut.id;
        assert id == outs[i].txOut.id;
      }
    }
  }

  lemma {:induction false} RowsAt(txos: map<TxoId, Txo>, outs: seq<OutputTxo>)
    ensures WithRows(txos, outs).Keys == txos.Keys + OutIds(outs)
    ensures forall id :: id in txos && id !in OutIds(outs) ==> WithRows(txos, outs)[id] == txos[id]
  {
    if outs == [] {
      assert OutIds(outs) == {};
    } else {
      RowsAt(txos, outs[..|outs| - 1]);
      FreshLast(txos, outs);
      hide OutIds;
    }
  }

  lemma {:induction false} LinksAt(outputs: map<(LogId, TxoId), OutputLink>, log: LogId, outs: seq<OutputTxo>, isChange: bool, id: TxoId)
    ensures (log, id) in WithLinks(outputs, log, outs, isChange) <==> (log, id) in outputs || id in OutIds(outs)
  {
    if outs == [] {
      assert OutIds(outs) == {};
    } else {
      LinksAt(outputs, log, outs[..|outs| - 1], isChange, id);
      FreshLast(map[], outs);
      hide OutIds;
    }
  }

  /** Inserting succeeds exactly when every output is new, and then adds exactly their rows and links. */
  lemma {:induction false} AddOutputsExact(db: Db, log: LogId, outs: seq<OutputTxo>, isChange: bool)
    requires log in db.logs && forall x :: x in db.outputs ==> x.1 in db.txos
    ensures var r := AddOutputs(db, log, outs, isChange);
      && (r.error.None? <==> Fresh(db.txos, outs))
      && (r.error.None? ==>
            r.db == db.(txos := WithRows(db.txos, outs), outputs := WithLinks(db.outputs, log, outs, isChange)))
  {
    if outs != [] {
      var init, last := outs[..|outs| - 1], outs[|outs| - 1];
      AddOutputsExact(db, log, init, isChange);
      FreshLast(db.txos, outs);
      RowsAt(db.txos, init);
      LinksAt(db.outputs, log, init, isChange, last.txOut.id);
      hide Fresh, OutIds;
    }
  }

  // ----- Whole transactions -----

  /** What a proposal must bring: payload, a new id, known inputs, and new outputs. */
  ghost predicate Recordable(db: Db, p: UnsignedProposal, a: AccountId) {
    && a in db.accounts && TransactionId(p.payload).Some? && TransactionId(p.payload).value !in db.logs
    && Known(db.txos, p.inputs) && Fresh(db.txos, p.payload + p.change)
  }

  lemma FreshBoth(txos: map<TxoId, Txo>, payload: seq<OutputTxo>, change: seq<OutputTxo>)
    ensures Fresh(txos, payload + change) <==> Fresh(txos, payload) && Fresh(WithRows(txos, payload), change)
  {
    RowsAt(txos, payload);
    var all := payload + change;
    assert forall i :: 0 <= i < |payload| ==> all[i] == payload[i];
    assert forall i :: 0 <= i < |change| ==> all[|payload| + i] == change[i];
    hide WithRows;
    if Fresh(txos, all) {
      forall i | 0 <= i < |change|
        ensures change[i].txOut.id !in OutIds(payload)
      {
        assert all[|payload| + i] == change[i];
      }
    }
    if Fresh(txos, payload) && Fresh(WithRows(txos, payload), change) {
      forall i, j | 0 <= i < j < |all|
        ensures all[i].txOut.id != all[j].txOut.id
      {
        if i < |payload| <= j {
          assert payload[i].txOut.id in OutIds(payload) && change[j - |payload|] == all[j];
        } else if |payload| <= i {
          assert change[i - |payload|] == all[i] && change[j - |payload|] == all[j];
        }
      }
    }
  }

  /**
   Building succeeds if and only if the proposal is recordable, and then leaves exactly one new log, the
   links of its inputs, and the rows and links of its outputs. Signing and submitting afresh succeed with it.
   */
  lemma BuiltIffRecordable(db: Db, p: UnsignedProposal, a: AccountId)
    requires Referential(db)
    ensures LogBuilt(db, p, a).error.None? <==> Recordable(db, p, a)
    ensures Recordable(db, p, a) ==>
      var id := TransactionId(p.payload).value;
      var d := LogBuilt(db, p, a).db;
      && d.logs == db.logs[id := Log(a, AsI64(p.fee), AsI64(p.feeToken), None, None, None, "", [], false)]
      && d.inputs == db.inputs + Links(id, p.inputs)
      && d.txos == WithRows(WithRows(db.txos, p.payload), p.change)
      && d.outputs == WithLinks(WithLinks(db.outputs, id, p.payload, false), id, p.change, true)
      && d == db.(logs := d.logs, inputs := d.inputs, txos := d.txos, outputs := d.outputs)
  {
    if a in db.accounts && TransactionId(p.payload).Some? && TransactionId(p.payload).value !in db.logs {
      var id := TransactionId(p.payload).value;
      var db1 := db.(logs := db.logs[id := Log(a, AsI64(p.fee), AsI64(p.feeToken), None, None, None, "", [], false)]);
      LinkInputsExact(db1, id, p.inputs);
      var r := LinkInputs(db1, id, p.inputs);
      FreshBoth(db.txos, p.payload, p.change);
      hide TransactionId, LinkInputs, AddOutputs, Known, Fresh;
      if r.error.None? {
        AddOutputsExact(r.db, id, p.payload, false);
        var s := AddOutputs(r.db, id, p.payload, false);
        if s.error.None? {
          LinksStayReferential(r.db, s.db, id, p.payload);
          AddOutputsExact(s.db, id, p.change, true);
        }
      }
    }
  }

  lemma LinksStayReferential(db: Db, d: Db, log: LogId, outs: seq<OutputTxo>)
    requires forall x :: x in db.outputs ==> x.1 in db.txos
    requires d == db.(txos := WithRows(db.txos, outs), outputs := WithLinks(db.outputs, log, outs, false))
    ensures forall x :: x in d.outputs ==> x.1 in d.txos
  {
    RowsAt(db.txos, outs);
    forall x | x in d.outputs
      ensures x.1 in d.txos
    {
      LinksOfLog(db.outputs, log, outs, x);
      LinksAt(db.outputs, log, outs, false, x.1);
    }
  }

  lemma {:induction false} LinksOfLog(outputs: map<(LogId, TxoId), OutputLink>, log: LogId, outs: seq<OutputTxo>, x: (LogId, TxoId))
    requires x in WithLinks(outputs, log, outs, false)
    ensures x in outputs || x.0 == log
  {
    if outs != [] && x.0 != log {
      LinksOfLog(outputs, log, outs[..|outs| - 1], x);
    }
  }

  // ----- Key images -----

  /** Every input's row gets its key image and loses its spent block; no other row changes. */
  lemma {:induction false} UpdateImagesAt(db: Db, ins: seq<InputTxo>, id: TxoId)
    requires id in db.txos
    requires forall i, j :: 0 <= i < j < |ins| ==> ins[i].txOut.id != ins[j].txOut.id
    ensures id in UpdateImages(db, ins).txos
    ensures forall x :: x in ins && x.txOut.id == id ==>
      UpdateImages(db, ins).txos[id] == db.txos[id].(keyImage := Some(x.keyImage), spent := None)
    ensures (forall x :: x in ins ==> x.txOut.id != id) ==> UpdateImages(db, ins).txos[id] == db.txos[id]
  {
    if ins != [] {
      var init, last := ins[..|ins| - 1], ins[|ins| - 1];
      assert ins == init + [last];
      UpdateImagesAt(db, init, id);
      if last.txOut.id == id {
        forall x | x in init
          ensures x.txOut.id != id
        {
          var i :| 0 <= i < |init| && init[i] == x;
          assert ins[i].txOut.id != ins[|ins| - 1].txOut.id;
        }
      }
    }
  }

  /** The row of every input holds its key image and no spent block, and is otherwise as before. */
  ghost predicate ImagesOnRecord(txos: map<TxoId, Txo>, txos': map<TxoId, Txo>, ins: seq<InputTxo>) {
    forall x :: x in ins ==>
      && x.txOut.id in txos && x.txOut.id in txos'
      && txos'[x.txOut.id] == txos[x.txOut.id].(keyImage := Some(x.keyImage), spent := None)
  }

  lemma BuiltThenImages(db: Db, p: Proposal, a: AccountId)
    requires Referential(db) && Recordable(db, Unsigned(p), a)
    ensures ImagesOnRecord(db.txos, UpdateImages(LogBuilt(db, Unsigned(p), a).db, p.inputs).txos, p.inputs)
  {
    BuiltIffRecordable(db, Unsigned(p), a);
    var d := LogBuilt(db, Unsigned(p), a).db;
    hide LogBuilt, UpdateImages, Referential;
    RowsAt(db.txos, p.payload);
    RowsAt(WithRows(db.txos, p.payload), p.change);
    forall x | x in p.inputs
      ensures x.txOut.id in db.txos && x.txOut.id in UpdateImages(d, p.inputs).txos
      ensures UpdateImages(d, p.inputs).txos[x.txOut.id] == db.txos[x.txOut.id].(keyImage := Some(x.keyImage), spent := None)
    {
      InputIsKnown(db, p, a, x);
      UpdateImagesAt(d, p.inputs, x.txOut.id);
    }
  }

  /**
   Submitting a transaction that has no log yet writes the key images of its inputs and clears their
   spent blocks, even those of inputs that were spent, and adds one pending log.
   */
  lemma SubmittedAfresh(db: Db, p: Proposal, block: nat, comment: string, a: AccountId)
    requires Referential(db) && Recordable(db, Unsigned(p), a)
    ensures var id := TransactionId(p.payload).value;
      var r := LogSubmitted(db, p, block, comment, a);
      && r.error.None?
      && r.db.logs == db.logs[id := Log(a, AsI64(p.fee), AsI64(p.feeToken), Some(block), Some(AsI64(p.tombstone)), None, comment, p.tx, false)]
      && r.db.inputs == db.inputs + Links(id, TxOuts(p.inputs))
      && ImagesOnRecord(db.txos, r.db.txos, p.inputs)
  {
    BuiltIffRecordable(db, Unsigned(p), a);
    NewLogFromBuilt(db, p, Some(block), comment, a);
    BuiltThenImages(db, p, a);
    UpdateImagesFrame(LogBuilt(db, Unsigned(p), a).db, p.inputs);
    hide LogBuilt, NewLog, UpdateImages, ImagesOnRecord, Referential, Known, Fresh, TransactionId;
  }

  lemma {:induction false} LinkInputsErrors(db: Db, log: LogId, ins: seq<TxOut>)
    ensures var e := LinkInputs(db, log, ins).error; e.None? || e == Some(ConstraintViolation)
  {
    if ins != [] {
      LinkInputsErrors(db, log, ins[..|ins| - 1]);
    }
  }

  lemma {:induction false} SignInputsErrors(db: Db, log: LogId, ins: seq<InputTxo>)
    ensures var e := SignInputs(db, log, ins).error; e.None? || e == Some(ConstraintViolation)
  {
    if ins != [] {
      SignInputsErrors(db, log, ins[..|ins| - 1]);
    }
  }

  lemma {:induction false} AddOutputsErrors(db: Db, log: LogId, outs: seq<OutputTxo>, isChange: bool)
    ensures var e := AddOutputs(db, log, outs, isChange).error; e.None? || e == Some(ConstraintViolation)
  {
    if outs != [] {
      AddOutputsErrors(db, log, outs[..|outs| - 1], isChange);
    }
  }

  lemma AddAllOutputsErrors(db: Db, log: LogId, payload: seq<OutputTxo>, change: seq<OutputTxo>)
    ensures var e := AddAllOutputs(db, log, payload, change).error; e.None? || e == Some(ConstraintViolation)
  {
    hide AddOutputs;
    AddOutputsErrors(db, log, payload, false);
    AddOutputsErrors(AddOutputs(db, log, payload, false).db, log, change, true);
  }

  /** A missing account is reported first, then a missing payload; every other error is a broken constraint. */
  ghost predicate ErrorIsExact(db: Db, a: AccountId, payload: seq<OutputTxo>, error: Option<DbError>) {
    && (error == Some(AccountNotFound) <==> a !in db.accounts)
    && (error == Some(InvalidArgument) <==> a in db.accounts && payload == [])
    && (error.None? || error == Some(AccountNotFound) || error == Some(InvalidArgument) || error == Some(ConstraintViolation))
  }

  lemma NewLogErrors(db: Db, p: Proposal, submitted: Option<nat>, comment: string, a: AccountId, id: LogId)
    ensures var e := NewLog(db, p, submitted, comment, a, id).error; e.None? || e == Some(ConstraintViolation)
  {
    hide SignInputs, AddAllOutputs;
    var log := Log(a, AsI64(p.fee), AsI64(p.feeToken), submitted, Some(AsI64(p.tombstone)), None, comment, p.tx, false);
    var db1 := db.(logs := db.logs[id := log]);
    SignInputsErrors(db1, id, p.inputs);
    AddAllOutputsErrors(SignInputs(db1, id, p.inputs).db, id, p.payload, p.change);
  }

  lemma BuildErrors(db: Db, p: UnsignedProposal, a: AccountId)
    ensures ErrorIsExact(db, a, p.payload, LogBuilt(db, p, a).error)
  {
    TransactionIdIsLeast(p.payload);
    hide LinkInputs, AddAllOutputs, TransactionId;
    if p.payload != [] {
      var id := TransactionId(p.payload).value;
      var db1 := db.(logs := db.logs[id := Log(a, AsI64(p.fee), AsI64(p.feeToken), None, None, None, "", [], false)]);
      LinkInputsErrors(db1, id, p.inputs);
      AddAllOutputsErrors(LinkInputs(db1, id, p.inputs).db, id, p.payload, p.change);
    }
  }

  lemma RecordErrors(db: Db, p: Proposal, block: nat, comment: string, a: AccountId)
    ensures ErrorIsExact(db, a, p.payload, LogSigned(db, p, comment, a).error)
    ensures ErrorIsExact(db, a, p.payload, LogSubmitted(db, p, block, comment, a).error)
  {
    TransactionIdIsLeast(p.payload);
    hide NewLog, TransactionId, UpdateImages;
    if p.payload != [] {
      NewLogErrors(db, p, None, comment, a, TransactionId(p.payload).value);
      NewLogErrors(db, p, Some(block), comment, a, TransactionId(p.payload).value);
    }
  }

  /** Signing without an earlier log adds the same rows, but a log that is not submitted. */
  lemma SignedAfresh(db: Db, p: Proposal, comment: string, a: AccountId)
    requires Referential(db) && Recordable(db, Unsigned(p), a)
    ensures var id := TransactionId(p.payload).value;
      var r := LogSigned(db, p, comment, a);
      && r.error.None?
      && r.db.logs == db.logs[id := Log(a, AsI64(p.fee), AsI64(p.feeToken), None, Some(AsI64(p.tombstone)), None, comment, p.tx, false)]
      && r.db.inputs == db.inputs + Links(id, TxOuts(p.inputs))
      && ImagesOnRecord(db.txos, r.db.txos, p.inputs)
  {
    BuiltIffRecordable(db, Unsigned(p), a);
    NewLogFromBuilt(db, p, None, comment, a);
    BuiltThenImages(db, p, a);
    UpdateImagesFrame(LogBuilt(db, Unsigned(p), a).db, p.inputs);
    hide LogBuilt, NewLog, UpdateImages, ImagesOnRecord, Referential, Known, Fresh, TransactionId;
  }

  lemma InputIsKnown(db: Db, p: Proposal, a: AccountId, x: InputTxo)
    requires Recordable(db, Unsigned(p), a) && x in p.inputs
    ensures x.txOut.id in db.txos && x.txOut.id !in OutIds(p.payload) && x.txOut.id !in OutIds(p.change)
    ensures forall i, j :: 0 <= i < j < |p.inputs| ==> p.inputs[i].txOut.id != p.inputs[j].txOut.id
  {
    var ins, all := TxOuts(p.inputs), p.payload + p.change;
    var k :| 0 <= k < |p.inputs| && p.inputs[k] == x;
    assert ins[k].id in db.txos;
    assert forall i :: 0 <= i < |p.payload| ==> all[i] == p.payload[i];
    assert forall i :: 0 <= i < |p.change| ==> all[|p.payload| + i] == p.change[i];
    forall i, j | 0 <= i < j < |p.inputs|
      ensures p.inputs[i].txOut.id != p.inputs[j].txOut.id
    {
      assert ins[i].id != ins[j].id;
    }
  }

  // ----- What is stored of an output -----

  /** The row holds the output's amount and keys, and no owner, subaddress, key image, received or spent block. */
  predicate HoldsOutput(txos: map<TxoId, Txo>, x: OutputTxo) {
    && x.txOut.id in txos
    && txos[x.txOut.id].value == AsI64(x.amount.value) && txos[x.txOut.id].token == AsI64(x.amount.token)
    && txos[x.txOut.id].targetKey == x.txOut.targetKey && txos[x.txOut.id].publicKey == x.txOut.publicKey
    && txos[x.txOut.id].account.None? && txos[x.txOut.id].subaddress.None? && txos[x.txOut.id].keyImage.None?
    && txos[x.txOut.id].received.None? && txos[x.txOut.id].spent.None?
  }

  /** The link names the output's recipient and whether it is change. */
  predicate HoldsLink(outputs: map<(LogId, TxoId), OutputLink>, log: LogId, x: OutputTxo, isChange: bool) {
    && (log, x.txOut.id) in outputs
    && outputs[(log, x.txOut.id)].recipient == x.recipient && outputs[(log, x.txOut.id)].isChange == isChange
  }

  predicate DistinctIds(outs: seq<OutputTxo>) {
    forall i, j :: 0 <= i < j < |outs| ==> outs[i].txOut.id != outs[j].txOut.id
  }

  lemma {:induction false} RowStored(txos: map<TxoId, Txo>, outs: seq<OutputTxo>, i: nat)
    requires DistinctIds(outs) && i < |outs|
    ensures HoldsOutput(WithRows(txos, outs), outs[i])
  {
    var init := outs[..|outs| - 1];
    if i < |init| {
      assert outs[i].txOut.id != outs[|outs| - 1].txOut.id;
      RowStored(txos, init, i);
    }
  }

  lemma {:induction false} LinkStored(outputs: map<(LogId, TxoId), OutputLink>, log: LogId, outs: seq<OutputTxo>, isChange: bool, i: nat)
    requires DistinctIds(outs) && i < |outs|
    ensures HoldsLink(WithLinks(outputs, log, outs, isChange), log, outs[i], isChange)
  {
    var init := outs[..|outs| - 1];
    if i < |init| {
      assert outs[i].txOut.id != outs[|outs| - 1].txOut.id;
      LinkStored(outputs, log, init, isChange, i);
    }
  }

  lemma {:induction false} LinkKept(outputs: map<(LogId, TxoId), OutputLink>, log: LogId, outs: seq<OutputTxo>, isChange: bool, id: TxoId)
    requires id !in OutIds(outs) && (log, id) in outputs
    ensures (log, id) in WithLinks(outputs, log, outs, isChange) && WithLinks(outputs, log, outs, isChange)[(log, id)] == outputs[(log, id)]
  {
    if outs != [] {
      FreshLast(map[], outs);
      LinkKept(outputs, log, outs[..|outs| - 1], isChange, id);
    }
  }

  ghost predicate OutputsStored(d: Db, log: LogId, payload: seq<OutputTxo>, change: seq<OutputTxo>) {
    && (forall x :: x in payload ==> HoldsOutput(d.txos, x) && HoldsLink(d.outputs, log, x, false))
    && (forall x :: x in change ==> HoldsOutput(d.txos, x) && HoldsLink(d.outputs, log, x, true))
  }

  lemma PayloadApart(txos: map<TxoId, Txo>, payload: seq<OutputTxo>, change: seq<OutputTxo>)
    requires Fresh(txos, payload + change)
    ensures DistinctIds(payload) && DistinctIds(change)
    ensures forall x :: x in payload ==> x.txOut.id !in OutIds(change)
  {
    var all := payload + change;
    assert forall i :: 0 <= i < |payload| ==> all[i] == payload[i];
    assert forall i :: 0 <= i < |change| ==> all[|payload| + i] == change[i];
    forall i, j | 0 <= i < |payload| && 0 <= j < |change|
      ensures payload[i].txOut.id != change[j].txOut.id
    {
      assert all[i].txOut.id != all[|payload| + j].txOut.id;
    }
  }

  lemma PayloadStored(db: Db, log: LogId, payload: seq<OutputTxo>, change: seq<OutputTxo>, i: nat)
    requires DistinctIds(payload) && i < |payload| && payload[i].txOut.id !in OutIds(change)
    ensures HoldsOutput(WithRows(WithRows(db.txos, payload), change), payload[i])
    ensures HoldsLink(WithLinks(WithLinks(db.outputs, log, payload, false), log, change, true), log, payload[i], false)
  {
    RowStored(db.txos, payload, i);
    LinkStored(db.outputs, log, payload, false, i);
    RowsAt(WithRows(db.txos, payload), change);
    LinkKept(WithLinks(db.outputs, log, payload, false), log, change, true, payload[i].txOut.id);
    hide WithRows, WithLinks, OutIds, DistinctIds;
  }

  lemma OutputsAfter(db: Db, d: Db, log: LogId, payload: seq<OutputTxo>, change: seq<OutputTxo>)
    requires Fresh(db.txos, payload + change)
    requires d.txos == WithRows(WithRows(db.txos, payload), change)
    requires d.outputs == WithLinks(WithLinks(db.outputs, log, payload, false), log, change, true)
    ensures OutputsStored(d, log, payload, change)
  {
    PayloadApart(db.txos, payload, change);
    hide Fresh, OutIds, DistinctIds, WithRows, WithLinks, HoldsOutput, HoldsLink;
    forall x | x in payload
      ensures HoldsOutput(d.txos, x) && HoldsLink(d.outputs, log, x, false)
    {
      var i :| 0 <= i < |payload| && payload[i] == x;
      PayloadStored(db, log, payload, change, i);
    }
    forall x | x in change
      ensures HoldsOutput(d.txos, x) && HoldsLink(d.outputs, log, x, true)
    {
      var i :| 0 <= i < |change| && change[i] == x;
      RowStored(WithRows(db.txos, payload), change, i);
      LinkStored(WithLinks(db.outputs, log, payload, false), log, change, true, i);
    }
  }

  /** A built transaction stores every output with its own amount and keys, unowned, and links it as payload or change. */
  lemma BuiltOutputs(db: Db, p: UnsignedProposal, a: AccountId)
    requires Referential(db) && Recordable(db, p, a)
    ensures OutputsStored(LogBuilt(db, p, a).db, TransactionId(p.payload).value, p.payload, p.change)
  {
    BuiltIffRecordable(db, p, a);
    hide LogBuilt, TransactionId, Referential, WithRows, WithLinks, Known, Fresh;
    OutputsAfter(db, LogBuilt(db, p, a).db, TransactionId(p.payload).value, p.payload, p.change);
  }

  lemma ImagesLeaveOutputs(db: Db, d: Db, p: Proposal, a: AccountId, log: LogId)
    requires Recordable(db, Unsigned(p), a) && OutputsStored(d, log, p.payload, p.change)
    ensures OutputsStored(UpdateImages(d, p.inputs), log, p.payload, p.change)
  {
    OutputsAreNotInputs(db, p, a);
    UpdateImagesFrame(d, p.inputs);
    hide UpdateImages, Recordable, HoldsOutput, HoldsLink;
    forall x | x in p.payload || x in p.change
      ensures HoldsOutput(UpdateImages(d, p.inputs).txos, x)
    {
      ImagesLeaveOutput(d, p, x);
    }
  }

  lemma NewLogOutputs(db: Db, p: Proposal, submitted: Option<nat>, comment: string, a: AccountId)
    requires Referential(db) && Recordable(db, Unsigned(p), a)
    ensures var log := TransactionId(p.payload).value; OutputsStored(NewLog(db, p, submitted, comment, a, log).db, log, p.payload, p.change)
  {
    BuiltIffRecordable(db, Unsigned(p), a);
    BuiltOutputs(db, Unsigned(p), a);
    NewLogFromBuilt(db, p, submitted, comment, a);
    ImagesLeaveOutputs(db, LogBuilt(db, Unsigned(p), a).db, p, a, TransactionId(p.payload).value);
    hide LogBuilt, NewLog, UpdateImages, Referential, Recordable, TransactionId, HoldsOutput, HoldsLink;
  }

  /** Signing and submitting afresh store the same. */
  lemma RecordedOutputs(db: Db, p: Proposal, block: nat, comment: string, a: AccountId)
    requires Referential(db) && Recordable(db, Unsigned(p), a)
    ensures OutputsStored(LogSigned(db, p, comment, a).db, TransactionId(p.payload).value, p.payload, p.change)
    ensures OutputsStored(LogSubmitted(db, p, block, comment, a).db, TransactionId(p.payload).value, p.payload, p.change)
  {
    NewLogOutputs(db, p, None, comment, a);
    NewLogOutputs(db, p, Some(block), comment, a);
    hide NewLog, UpdateImages, Referential, TransactionId, OutputsStored, Known, Fresh;
  }

  lemma ImagesLeaveOutput(d: Db, p: Proposal, x: OutputTxo)
    requires HoldsOutput(d.txos, x) && forall y :: y in p.inputs ==> y.txOut.id != x.txOut.id
    requires forall i, j :: 0 <= i < j < |p.inputs| ==> p.inputs[i].txOut.id != p.inputs[j].txOut.id
    ensures HoldsOutput(UpdateImages(d, p.inputs).txos, x)
  {
    UpdateImagesAt(d, p.inputs, x.txOut.id);
  }

  lemma OutputsAreNotInputs(db: Db, p: Proposal, a: AccountId)
    requires Recordable(db, Unsigned(p), a)
    ensures forall x, y :: (x in p.payload || x in p.change) && y in p.inputs ==> y.txOut.id != x.txOut.id
    ensures forall i, j :: 0 <= i < j < |p.inputs| ==> p.inputs[i].txOut.id != p.inputs[j].txOut.id
  {
    forall i, j | 0 <= i < j < |p.inputs|
      ensures p.inputs[i].txOut.id != p.inputs[j].txOut.id
    {
      InputIsKnown(db, p, a, p.inputs[i]);
    }
    forall x, y | (x in p.payload || x in p.change) && y in p.inputs
      ensures y.txOut.id != x.txOut.id
    {
      InputIsKnown(db, p, a, y);
      if x in p.payload {
        var i :| 0 <= i < |p.payload| && p.payload[i] == x;
        assert x.txOut.id in OutIds(p.payload);
      } else {
        var i :| 0 <= i < |p.change| && p.change[i] == x;
        assert x.txOut.id in OutIds(p.change);
      }
    }
  }
}
