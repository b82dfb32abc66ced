/**
 Recording a transaction: built, signed or submitted. A log is written statement by
 statement, so an error leaves the rows written before it, and only a caller's surrounding
 transaction undoes them.
 */
module Logging {
  import opened Schema

  datatype InputTxo = InputTxo(txOut: TxOut, keyImage: KeyImage)

  datatype OutputTxo = OutputTxo(txOut: TxOut, recipient: string, amount: Amount)

  datatype UnsignedProposal = UnsignedProposal(inputs: seq<TxOut>, payload: seq<OutputTxo>, change: seq<OutputTxo>, fee: u64, feeToken: u64)

  datatype Proposal = Proposal(inputs: seq<InputTxo>, payload: seq<OutputTxo>, change: seq<OutputTxo>,
                               fee: u64, feeToken: u64, tombstone: u64, tx: seq<bv8>)

  datatype TxStatus = Built | Signed | IsPending | Succeeded | Failed

  /** A log that was signed but not submitted still reads as built. */
  function Status(log: Log): TxStatus {
    if log.failed then Failed
    else if log.finalized.Some? then Succeeded
    else if log.submitted.Some? then IsPending
    else Built
  }

  /** What signing adds is the key images, the tombstone and the transaction bytes. */
  function Unsigned(p: Proposal): UnsignedProposal {
    UnsignedProposal(TxOuts(p.inputs), p.payload, p.change, p.fee, p.feeToken)
  }

  // ----- The log's id -----

  /** The least public key among the payload outputs; none without payload. */
  function TransactionId(payload: seq<OutputTxo>): Option<LogId> {
    if payload == [] then None
    else
      var rest, key := TransactionId(payload[..|payload| - 1]), payload[|payload| - 1].txOut.publicKey;
      if rest.None? || key < rest.value then Some(key) else rest
  }

  lemma {:induction false} TransactionIdIsLeast(payload: seq<OutputTxo>)
    ensures TransactionId(payload).None? <==> payload == []
    ensures payload != [] ==> exists o :: o in payload && o.txOut.publicKey == TransactionId(payload).value
    ensures forall o :: o in payload ==> TransactionId(payload).value <= o.txOut.publicKey
  {
    if payload != [] {
      var init, last := payload[..|payload| - 1], payload[|payload| - 1];
      TransactionIdIsLeast(init);
      assert payload == init + [last];
      if init != [] {
        var o :| o in init && o.txOut.publicKey == TransactionId(init).value;
        assert o in payload && last in payload;
      }
    }
  }

  /** The id does not depend on the order of the payload. */
  lemma TransactionIdIgnoresOrder(p: seq<OutputTxo>, q: seq<OutputTxo>)
    requires multiset(p) == multiset(q)
    ensures TransactionId(p) == TransactionId(q)
  {
    hide TransactionId;
    TransactionIdIsLeast(p);
    TransactionIdIsLeast(q);
    assert forall o :: o in p <==> o in multiset(p);
    assert forall o :: o in q <==> o in multiset(q);
    assert |p| == |multiset(p)| && |q| == |multiset(q)|;
  }

  // ----- Statements -----

  /** UPDATE txos SET key_image, spent_block_index: no row, no effect. */
  function UpdateKeyImage(db: Db, id: TxoId, image: KeyImage, spent: Option<nat>): Db {
    if id in db.txos then db.(txos := db.txos[id := db.txos[id].(keyImage := Some(image), spent := spent)]) else db
  }

  function InsertInput(db: Db, log: LogId, id: TxoId): Outcome {
    if (log, id) in db.inputs || id !in db.txos || log !in db.logs then Outcome(db, Some(ConstraintViolation))
    else Outcome(db.(inputs := db.inputs + {(log, id)}), None)
  }

  /** A fresh output belongs to no account until a scan receives it. */
  function NewOutputRow(o: OutputTxo): Txo {
    Txo(None, AsI64(o.amount.value), AsI64(o.amount.token), o.txOut.targetKey, o.txOut.publicKey, None, None, None, None)
  }

  function CreateNewOutput(db: Db, o: OutputTxo, isChange: bool, log: LogId): Outcome {
    if o.txOut.id in db.txos then Outcome(db, Some(ConstraintViolation))
    else
      var db1 := db.(txos := db.txos[o.txOut.id := NewOutputRow(o)]);
      if (log, o.txOut.id) in db.outputs || log !in db.logs then Outcome(db1, Some(ConstraintViolation))
      else Outcome(db1.(outputs := db1.outputs[(log, o.txOut.id) := OutputLink(o.recipient, isChange)]), None)
  }

  // ----- Loops -----

  function LinkInputs(db: Db, log: LogId, ins: seq<TxOut>): Outcome {
    if ins == [] then Outcome(db, None)
    else
      var r := LinkInputs(db, log, ins[..|ins| - 1]);
      if r.error.Some? then r else InsertInput(r.db, log, ins[|ins| - 1].id)
  }

  function SignInputs(db: Db, log: LogId, ins: seq<InputTxo>): Outcome {
    if ins == [] then Outcome(db, None)
    else
      var r := SignInputs(db, log, ins[..|ins| - 1]);
      var last := ins[|ins| - 1];
      if r.error.Some? then r else InsertInput(UpdateKeyImage(r.db, last.txOut.id, last.keyImage, None), log, last.txOut.id)
  }

  function UpdateImages(db: Db, ins: seq<InputTxo>): Db {
    if ins == [] then db
    else
      var last := ins[|ins| - 1];
      UpdateKeyImage(UpdateImages(db, ins[..|ins| - 1]), last.txOut.id, last.keyImage, None)
  }

  function AddOutputs(db: Db, log: LogId, outs: seq<OutputTxo>, isChange: bool): Outcome {
    if outs == [] then Outcome(db, None)
    else
      var r := AddOutputs(db, log, outs[..|outs| - 1], isChange);
      if r.error.Some? then r else CreateNewOutput(r.db, outs[|outs| - 1], isChange, log)
  }

  function AddAllOutputs(db: Db, log: LogId, payload: seq<OutputTxo>, change: seq<OutputTxo>): Outcome {
    var r := AddOutputs(db, log, payload, false);
    if r.error.Some? then r else AddOutputs(r.db, log, change, true)
  }

  // ----- The three ways to record a log -----

  /** A log that was built but not signed has no tombstone, no transaction and no comment yet. */
  function NewBuiltLog(db: Db, p: UnsignedProposal, a: AccountId, id: LogId): Outcome {
    var log := Log(a, AsI64(p.fee), AsI64(p.feeToken), None, None, None, "", [], false);
    var r := LinkInputs(db.(logs := db.logs[id := log]), id, p.inputs);
    if r.error.Some? then r else AddAllOutputs(r.db, id, p.payload, p.change)
  }

  function LogBuilt(db: Db, p: UnsignedProposal, a: AccountId): Outcome {
    var id := TransactionId(p.payload);
    if a !in db.accounts then Outcome(db, Some(AccountNotFound))
    else if id.None? then Outcome(db, Some(InvalidArgument))
    else if id.value in db.logs then Outcome(db, Some(ConstraintViolation))
    else NewBuiltLog(db, p, a, id.value)
  }

  /** Record a transaction that has no log yet, with its key images. */
  function NewLog(db: Db, p: Proposal, submitted: Option<nat>, comment: string, a: AccountId, id: LogId): Outcome {
    var log := Log(a, AsI64(p.fee), AsI64(p.feeToken), submitted, Some(AsI64(p.tombstone)), None, comment, p.tx, false);
    var r := SignInputs(db.(logs := db.logs[id := log]), id, p.inputs);
    if r.error.Some? then r else AddAllOutputs(r.db, id, p.payload, p.change)
  }

  function LogSigned(db: Db, p: Proposal, comment: string, a: AccountId): Outcome {
    var id := TransactionId(p.payload);
    if a !in db.accounts then Outcome(db, Some(AccountNotFound))
    else if id.None? then Outcome(db, Some(InvalidArgument))
    else if id.value in db.logs then
      var db1 := UpdateImages(db, p.inputs);
      var log := db.logs[id.value].(comment := comment, tx := p.tx, tombstone := Some(AsI64(p.tombstone)));
      Outcome(db1.(logs := db1.logs[id.value := log]), None)
    else NewLog(db, p, None, comment, a, id.value)
  }

  function LogSubmitted(db: Db, p: Proposal, block: nat, comment: string, a: AccountId): Outcome {
    var id := TransactionId(p.payload);
    if a !in db.accounts then Outcome(db, Some(AccountNotFound))
    else if id.None? then Outcome(db, Some(InvalidArgument))
    else if id.value in db.logs then
      Outcome(db.(logs := db.logs[id.value := db.logs[id.value].(submitted := Some(block), comment := comment)]), None)
    else NewLog(db, p, Some(block), comment, a, id.value)
  }

  // ----- Recording routes converge -----

  function TxOuts(ins: seq<InputTxo>): seq<TxOut> {
    seq(|ins|, i requires 0 <= i < |ins| => ins[i].txOut)
  }

  lemma {:induction false} UpdateImagesFrame(db: Db, ins: seq<InputTxo>)
    ensures var r := UpdateImages(db, ins); r == db.(txos := r.txos) && r.txos.Keys == db.txos.Keys
  {
    if ins != [] {
      UpdateImagesFrame(db, ins[..|ins| - 1]);
    }
  }

  lemma {:induction false} UpdateImagesIgnores(db: Db, db': Db, ins: seq<InputTxo>)
    requires db'.txos == db.txos
    ensures UpdateImages(db', ins) == db'.(txos := UpdateImages(db, ins).txos)
  {
    if ins != [] {
      UpdateImagesIgnores(db, db', ins[..|ins| - 1]);
    }
  }

  /** Writing key images while linking inputs is linking them first and writing the key images afterwards. */
  lemma {:induction false} SignIsLinkThenUpdate(db: Db, log: LogId, ins: seq<InputTxo>)
    ensures var s, k := SignInputs(db, log, ins), LinkInputs(db, log, TxOuts(ins));
      s.error == k.error && (k.error.None? ==> s.db == UpdateImages(k.db, ins))
  {
    if ins != [] {
      var init, last := ins[..|ins| - 1], ins[|ins| - 1];
      SignIsLinkThenUpdate(db, log, init);
      assert TxOuts(ins)[..|ins| - 1] == TxOuts(init);
      var k0, k := LinkInputs(db, log, TxOuts(init)), LinkInputs(db, log, TxOuts(ins));
      if k0.error.None? {
        UpdateImagesFrame(k0.db, init);
        UpdateImagesIgnores(k0.db, k.db, init);
        UpdateImagesFrame(k.db, ins);
      }
    }
  }

  lemma {:induction false} LinkedInputsExist(db: Db, log: LogId, ins: seq<TxOut>)
    requires LinkInputs(db, log, ins).error.None?
    ensures forall x :: x in ins ==> x.id in db.txos
    ensures LinkInputs(db, log, ins).db == db.(inputs := LinkInputs(db, log, ins).db.inputs)
  {
    if ins != [] {
      LinkedInputsExist(db, log, ins[..|ins| - 1]);
    }
  }

  lemma {:induction false} UpdateImagesBesideNewRow(db: Db, id: TxoId, row: Txo, ins: seq<InputTxo>)
    requires forall x :: x in ins ==> x.txOut.id != id
    ensures UpdateImages(db.(txos := db.txos[id := row]), ins).txos == UpdateImages(db, ins).txos[id := row]
  {
    if ins != [] {
      assert ins[|ins| - 1] in ins;
      assert forall x :: x in ins[..|ins| - 1] ==> x in ins;
      UpdateImagesBesideNewRow(db, id, row, ins[..|ins| - 1]);
    }
  }

  lemma CreateOutputCommutes(db: Db, o: OutputTxo, isChange: bool, log: LogId, ins: seq<InputTxo>)
    requires forall x :: x in ins ==> x.txOut.id in db.txos
    ensures var r, r' := CreateNewOutput(db, o, isChange, log), CreateNewOutput(UpdateImages(db, ins), o, isChange, log);
      r.error == r'.error && (r.error.None? ==> r'.db == UpdateImages(r.db, ins))
  {
    UpdateImagesFrame(db, ins);
    if o.txOut.id !in db.txos {
      var db1 := db.(txos := db.txos[o.txOut.id := NewOutputRow(o)]);
      UpdateImagesBesideNewRow(db, o.txOut.id, NewOutputRow(o), ins);
      UpdateImagesFrame(db1, ins);
      UpdateImagesIgnores(db1, CreateNewOutput(db, o, isChange, log).db, ins);
    }
  }

  /** New outputs and key image updates of existing inputs commute. */
  lemma {:induction false} AddOutputsCommutes(db: Db, log: LogId, outs: seq<OutputTxo>, isChange: bool, ins: seq<InputTxo>)
    requires forall x :: x in ins ==> x.txOut.id in db.txos
    ensures var r, r' := AddOutputs(db, log, outs, isChange), AddOutputs(UpdateImages(db, ins), log, outs, isChange);
      && r.error == r'.error
      && (r.error.None? ==> r'.db == UpdateImages(r.db, ins))
      && db.txos.Keys <= r.db.txos.Keys
  {
    if outs != [] {
      AddOutputsCommutes(db, log, outs[..|outs| - 1], isChange, ins);
      var r := AddOutputs(db, log, outs[..|outs| - 1], isChange);
      if r.error.None? {
        CreateOutputCommutes(r.db, outs[|outs| - 1], isChange, log, ins);
      }
    }
  }

  lemma {:induction false} LinkInputsIgnoresLog(db: Db, log: LogId, ins: seq<TxOut>, logs: map<LogId, Log>)
    requires logs.Keys == db.logs.Keys
    ensures var r, r' := LinkInputs(db, log, ins), LinkInputs(db.(logs := logs), log, ins);
      r'.error == r.error && r'.db == r.db.(logs := logs) && r.db.logs == db.logs
  {
    if ins != [] {
      LinkInputsIgnoresLog(db, log, ins[..|ins| - 1], logs);
    }
  }

  lemma {:induction false} AddOutputsIgnoresLog(db: Db, log: LogId, outs: seq<OutputTxo>, isChange: bool, logs: map<LogId, Log>)
    requires logs.Keys == db.logs.Keys
    ensures var r, r' := AddOutputs(db, log, outs, isChange), AddOutputs(db.(logs := logs), log, outs, isChange);
      r'.error == r.error && r'.db == r.db.(logs := logs) && r.db.logs == db.logs
  {
    if outs != [] {
      AddOutputsIgnoresLog(db, log, outs[..|outs| - 1], isChange, logs);
    }
  }

  /** Recording a proposal at once and building it first differ only in the key images and the log row. */
  lemma NewLogFromBuilt(db: Db, p: Proposal, submitted: Option<nat>, comment: string, a: AccountId)
    requires a in db.accounts && TransactionId(p.payload).Some? && TransactionId(p.payload).value !in db.logs
    ensures var id := TransactionId(p.payload).value;
      var built, r := LogBuilt(db, Unsigned(p), a), NewLog(db, p, submitted, comment, a, id);
      var log := Log(a, AsI64(p.fee), AsI64(p.feeToken), submitted, Some(AsI64(p.tombstone)), None, comment, p.tx, false);
      && r.error == built.error
      && (r.error.None? ==> r.db == UpdateImages(built.db, p.inputs).(logs := db.logs[id := log]))
      && (r.error.None? ==> built.db.logs == db.logs[id := Log(a, AsI64(p.fee), AsI64(p.feeToken), None, None, None, "", [], false)])
      && (r.error.None? ==> built.db.accounts == db.accounts)
  {
    var id := TransactionId(p.payload).value;
    var log0 := Log(a, AsI64(p.fee), AsI64(p.feeToken), None, None, None, "", [], false);
    var log1 := Log(a, AsI64(p.fee), AsI64(p.feeToken), submitted, Some(AsI64(p.tombstone)), None, comment, p.tx, false);
    var db0, db1 := db.(logs := db.logs[id := log0]), db.(logs := db.logs[id := log1]);
    assert db1 == db0.(logs := db1.logs);
    var ins := Unsigned(p).inputs;
    assert ins == TxOuts(p.inputs);
    SignIsLinkThenUpdate(db1, id, p.inputs);
    LinkInputsIgnoresLog(db0, id, ins, db1.logs);
    var k := LinkInputs(db0, id, ins);
    if k.error.None? {
      LinkedInputsExist(db0, id, ins);
      assert forall x :: x in p.inputs ==> x.txOut.id in k.db.txos by {
        forall x | x in p.inputs ensures x.txOut in ins {
          var i :| 0 <= i < |p.inputs| && p.inputs[i] == x;
          assert ins[i] == x.txOut;
        }
      }
      UpdateImagesIgnores(k.db, k.db.(logs := db1.logs), p.inputs);
      UpdateImagesFrame(k.db, p.inputs);
      OutputsFromBuilt(k.db, id, p, db1.logs);
    }
  }

  lemma OutputsFromBuilt(db: Db, id: LogId, p: Proposal, logs: map<LogId, Log>)
    requires logs.Keys == db.logs.Keys
    requires forall x :: x in p.inputs ==> x.txOut.id in db.txos
    ensures var r := AddAllOutputs(db, id, p.payload, p.change);
      var r' := AddAllOutputs(UpdateImages(db, p.inputs).(logs := logs), id, p.payload, p.change);
      && r'.error == r.error
      && (r.error.None? ==> r'.db == UpdateImages(r.db, p.inputs).(logs := logs))
      && r.db.logs == db.logs
      && r.db.accounts == db.accounts
  {
    var u := UpdateImages(db, p.inputs);
    UpdateImagesFrame(db, p.inputs);
    AddOutputsCommutes(db, id, p.payload, false, p.inputs);
    AddOutputsIgnoresLog(u, id, p.payload, false, logs);
    AddOutputsIgnoresLog(db, id, p.payload, false, db.logs);
    AddOutputsKeepsAccounts(db, id, p.payload, false);
    var r := AddOutputs(db, id, p.payload, false);
    if r.error.None? {
      var v := UpdateImages(r.db, p.inputs);
      UpdateImagesFrame(r.db, p.inputs);
      AddOutputsCommutes(r.db, id, p.change, true, p.inputs);
      AddOutputsIgnoresLog(v, id, p.change, true, logs);
      AddOutputsIgnoresLog(r.db, id, p.change, true, r.db.logs);
      AddOutputsKeepsAccounts(r.db, id, p.change, true);
    }
  }

  lemma {:induction false} AddOutputsKeepsAccounts(db: Db, log: LogId, outs: seq<OutputTxo>, isChange: bool)
    ensures AddOutputs(db, log, outs, isChange).db.accounts == db.accounts
  {
    if outs != [] {
      AddOutputsKeepsAccounts(db, log, outs[..|outs| - 1], isChange);
    }
  }

  /** Signing a built log leaves what signing without building leaves. */
  lemma SignAfterBuild(db: Db, p: Proposal, comment: string, a: AccountId)
    requires a in db.accounts && TransactionId(p.payload).Some? && TransactionId(p.payload).value !in db.logs
    requires LogBuilt(db, Unsigned(p), a).error.None?
    ensures LogSigned(LogBuilt(db, Unsigned(p), a).db, p, comment, a) == LogSigned(db, p, comment, a)
    ensures LogSigned(db, p, comment, a).error.None?
  {
    hide LogBuilt, NewLog, TransactionId, UpdateImages;
    NewLogFromBuilt(db, p, None, comment, a);
    UpdateImagesFrame(LogBuilt(db, Unsigned(p), a).db, p.inputs);
  }

  /** Submitting a signed log leaves what submitting at once leaves. */
  lemma SubmitAfterSign(db: Db, p: Proposal, block: nat, comment: string, draft: string, a: AccountId)
    requires a in db.accounts && TransactionId(p.payload).Some? && TransactionId(p.payload).value !in db.logs
    requires LogBuilt(db, Unsigned(p), a).error.None?
    ensures LogSubmitted(LogSigned(db, p, draft, a).db, p, block, comment, a) == LogSubmitted(db, p, block, comment, a)
  {
    hide LogBuilt, NewLog, TransactionId, UpdateImages;
    NewLogFromBuilt(db, p, Some(block), comment, a);
    NewLogFromBuilt(db, p, None, draft, a);
    UpdateImagesFrame(LogBuilt(db, Unsigned(p), a).db, p.inputs);
  }

  /**
   Build-sign-submit, sign-submit and direct submit of one proposal succeed together, and then
   leave the same database, whatever comments the earlier steps carried.
   */
  lemma RoutesConverge(db: Db, p: Proposal, block: nat, comment: string, draft: string, a: AccountId)
    requires TransactionId(p.payload).Some? ==> TransactionId(p.payload).value !in db.logs
    ensures var direct := LogSubmitted(db, p, block, comment, a);
      var signed := LogSigned(db, p, draft, a);
      var built := LogBuilt(db, Unsigned(p), a);
      && built.error == signed.error == direct.error
      && (direct.error.None? ==>
            && LogSubmitted(signed.db, p, block, comment, a) == direct
            && LogSigned(built.db, p, draft, a).error.None?
            && LogSubmitted(LogSigned(built.db, p, draft, a).db, p, block, comment, a) == direct)
  {
    if a in db.accounts && TransactionId(p.payload).Some? {
      hide NewLog, TransactionId;
      NewLogFromBuilt(db, p, Some(block), comment, a);
      NewLogFromBuilt(db, p, None, draft, a);
      hide LogBuilt, LogSigned, LogSubmitted;
      if LogBuilt(db, Unsigned(p), a).error.None? {
        SignAfterBuild(db, p, draft, a);
        SubmitAfterSign(db, p, block, comment, draft, a);
      }
    }
  }
}
