/** Foreign keys and log verdicts under every step, with no assumption on what is being recorded. */
module Integrity {
  import opened Schema
  import opened Ledger
  import opened Scan
  import opened Logging
  import opened Addresses
  import opened Removal
  import opened Refinement
  import opened Steps

  // ----- Foreign keys -----

  lemma {:induction false} LinkInputsFk(db: Db, log: LogId, ins: seq<TxOut>)
    requires FkValid(db)
    ensures FkValid(LinkInputs(db, log, ins).db)
  {
    if ins != [] {
      LinkInputsFk(db, log, ins[..|ins| - 1]);
    }
  }

  lemma UpdateKeyImageFk(db: Db, id: TxoId, image: KeyImage, spent: Option<nat>)
    requires FkValid(db)
    ensures FkValid(UpdateKeyImage(db, id, image, spent))
  {
  }

  lemma {:induction false} SignInputsFk(db: Db, log: LogId, ins: seq<InputTxo>)
    requires FkValid(db)
    ensures FkValid(SignInputs(db, log, ins).db)
  {
    if ins != [] {
      var last := ins[|ins| - 1];
      SignInputsFk(db, log, ins[..|ins| - 1]);
      UpdateKeyImageFk(SignInputs(db, log, ins[..|ins| - 1]).db, last.txOut.id, last.keyImage, None);
    }
  }

  lemma {:induction false} UpdateImagesFk(db: Db, ins: seq<InputTxo>)
    requires FkValid(db)
    ensures FkValid(UpdateImages(db, ins))
  {
    if ins != [] {
      var last := ins[|ins| - 1];
      UpdateImagesFk(db, ins[..|ins| - 1]);
      hide FkValid;
      UpdateKeyImageFk(UpdateImages(db, ins[..|ins| - 1]), last.txOut.id, last.keyImage, None);
    }
  }

  lemma CreateNewOutputFk(db: Db, o: OutputTxo, isChange: bool, log: LogId)
    requires FkValid(db)
    ensures FkValid(CreateNewOutput(db, o, isChange, log).db)
  {
  }

  lemma {:induction false} AddOutputsFk(db: Db, log: LogId, outs: seq<OutputTxo>, isChange: bool)
    requires FkValid(db)
    ensures FkValid(AddOutputs(db, log, outs, isChange).db)
  {
    if outs != [] {
      AddOutputsFk(db, log, outs[..|outs| - 1], isChange);
      hide FkValid;
      CreateNewOutputFk(AddOutputs(db, log, outs[..|outs| - 1], isChange).db, outs[|outs| - 1], isChange, log);
    }
  }

  lemma SetLogFk(db: Db, id: LogId, log: Log)
    requires FkValid(db) && log.account in db.accounts
    ensures FkValid(db.(logs := db.logs[id := log]))
  {
  }

  lemma AddAllOutputsFk(db: Db, log: LogId, payload: seq<OutputTxo>, change: seq<OutputTxo>)
    requires FkValid(db)
    ensures FkValid(AddAllOutputs(db, log, payload, change).db)
  {
    hide FkValid;
    AddOutputsFk(db, log, payload, false);
    AddOutputsFk(AddOutputs(db, log, payload, false).db, log, change, true);
  }

  lemma NewLogFk(db: Db, p: Proposal, submitted: Option<nat>, comment: string, a: AccountId, id: LogId)
    requires FkValid(db) && a in db.accounts
    ensures FkValid(NewLog(db, p, submitted, comment, a, id).db)
  {
    hide FkValid;
    var log := Log(a, AsI64(p.fee), AsI64(p.feeToken), submitted, Some(AsI64(p.tombstone)), None, comment, p.tx, false);
    SetLogFk(db, id, log);
    var db1 := db.(logs := db.logs[id := log]);
    SignInputsFk(db1, id, p.inputs);
    AddAllOutputsFk(SignInputs(db1, id, p.inputs).db, id, p.payload, p.change);
  }

  lemma BuiltFk(db: Db, p: UnsignedProposal, a: AccountId)
    requires FkValid(db)
    ensures FkValid(LogBuilt(db, p, a).db)
  {
    hide FkValid, TransactionId;
    var id := TransactionId(p.payload);
    if a in db.accounts && id.Some? && id.value !in db.logs {
      var log := Log(a, AsI64(p.fee), AsI64(p.feeToken), None, None, None, "", [], false);
      SetLogFk(db, id.value, log);
      var db1 := db.(logs := db.logs[id.value := log]);
      LinkInputsFk(db1, id.value, p.inputs);
      AddAllOutputsFk(LinkInputs(db1, id.value, p.inputs).db, id.value, p.payload, p.change);
    }
  }

  lemma SignedFk(db: Db, p: Proposal, comment: string, a: AccountId)
    requires FkValid(db)
    ensures FkValid(LogSigned(db, p, comment, a).db)
  {
    var id := TransactionId(p.payload);
    if a in db.accounts && id.Some? {
      if id.value in db.logs {
        assert db.logs[id.value].account in db.accounts;
        hide FkValid, TransactionId;
        UpdateImagesFk(db, p.inputs);
        UpdateImagesFrame(db, p.inputs);
        SetLogFk(UpdateImages(db, p.inputs), id.value,
                 db.logs[id.value].(comment := comment, tx := p.tx, tombstone := Some(AsI64(p.tombstone))));
      } else {
        hide FkValid, TransactionId, NewLog;
        NewLogFk(db, p, None, comment, a, id.value);
      }
    }
  }

  lemma SubmittedFk(db: Db, p: Proposal, at: nat, comment: string, a: AccountId)
    requires FkValid(db)
    ensures FkValid(LogSubmitted(db, p, at, comment, a).db)
  {
    var id := TransactionId(p.payload);
    if a in db.accounts && id.Some? {
      if id.value in db.logs {
        assert db.logs[id.value].account in db.accounts;
        hide FkValid, TransactionId;
        SetLogFk(db, id.value, db.logs[id.value].(submitted := Some(at), comment := comment));
      } else {
        hide FkValid, TransactionId, NewLog;
        NewLogFk(db, p, Some(at), comment, a, id.value);
      }
    }
  }

  lemma {:induction false} ReceiveAllOwners(txos: map<TxoId, Txo>, subs: map<SpendKey, Subaddress>, a: AccountId, full: bool,
                                            outs: seq<(nat, TxOut)>)
    ensures var r := ReceiveAll(txos, subs, a, full, outs);
      && txos.Keys <= r.Keys
      && (forall id :: id in r ==> r[id].account == Some(a) || (id in txos && r[id] == txos[id]))
  {
    if outs != [] {
      ReceiveAllOwners(txos, subs, a, full, outs[..|outs| - 1]);
    }
  }

  /** A chunk only adds rows, and gives rows to no one but the scanning account. */
  lemma ScanOwners(db: Db, l: Chain, c: AccountId, id: TxoId)
    requires id in ScanChunk(db, l, c).txos
    ensures var row := ScanChunk(db, l, c).txos[id];
      (c in db.accounts && row.account == Some(c)) || (id in db.txos && row == db.txos[id])
  {
    if c in db.accounts && db.accounts[c].nextBlock < |l| {
      ScanRowSound(db, l, c, id);
      var s := db.accounts[c].nextBlock;
      ReceiveAllOwners(db.txos, db.subaddresses, c, !db.accounts[c].viewOnly, Decoded(ChunkOutputs(l, s, ChunkEnd(l, s)), c));
    }
  }

  lemma ScanKeepsKeys(db: Db, l: Chain, c: AccountId)
    ensures var d := ScanChunk(db, l, c);
      && d == db.(txos := d.txos, logs := d.logs, accounts := d.accounts)
      && d.accounts.Keys == db.accounts.Keys && d.logs.Keys == db.logs.Keys && db.txos.Keys <= d.txos.Keys
  {
    if c in db.accounts && db.accounts[c].nextBlock < |l| {
      ScanLog(db, l, c, 0);
      var s := db.accounts[c].nextBlock;
      ReceiveAllOwners(db.txos, db.subaddresses, c, !db.accounts[c].viewOnly, Decoded(ChunkOutputs(l, s, ChunkEnd(l, s)), c));
      forall id | id in db.txos ensures id in ScanChunk(db, l, c).txos {
        ScanRowSound(db, l, c, id);
      }
    }
  }

  lemma ScanFk(db: Db, l: Chain, c: AccountId)
    requires FkValid(db)
    ensures FkValid(ScanChunk(db, l, c))
  {
    var d := ScanChunk(db, l, c);
    ScanKeepsKeys(db, l, c);
    forall id | id in d.txos && d.txos[id].account.Some? ensures d.txos[id].account.value in d.accounts {
      ScanOwners(db, l, c, id);
    }
    forall log | log in d.logs ensures d.logs[log].account in d.accounts {
      if c in db.accounts && db.accounts[c].nextBlock < |l| {
        ScanLog(db, l, c, log);
      }
    }
    hide ScanChunk;
  }

  lemma {:induction false} InsertSubaddressesFk(db: Db, a: AccountId, indices: seq<u64>)
    requires FkValid(db)
    ensures FkValid(InsertSubaddresses(db, a, indices).db)
    ensures InsertSubaddresses(db, a, indices).db.accounts == db.accounts
  {
    if indices != [] {
      InsertSubaddressesFk(db, a, indices[..|indices| - 1]);
    }
  }

  lemma CreateFk(db: Db, c: AccountId, first: nat, next: Option<u64>, viewOnly: bool, fog: bool)
    requires FkValid(db)
    ensures FkValid(CreateAccount(db, c, first, next, viewOnly, fog).db)
  {
    if c !in db.accounts {
      var n: u64 := if next.Some? then next.value else DEFAULT_NEXT_SUBADDRESS_INDEX;
      InsertSubaddressesFk(db.(accounts := db.accounts[c := Account(first, first, viewOnly, fog, false)]), c,
                           InitialIndices(viewOnly, fog, n));
    }
  }

  lemma AssignFk(db: Db, l: Chain, c: AccountId)
    requires FkValid(db)
    ensures FkValid(CreateNext(db, l, c).db)
  {
  }

  lemma ResyncFk(db: Db, c: AccountId)
    requires FkValid(db)
    ensures FkValid(ResyncAccount(db, c))
  {
  }

  lemma RemoveFk(db: Db, c: AccountId)
    requires FkValid(db)
    ensures FkValid(RemoveAccount(db, c).db)
  {
    if c in db.accounts {
      RemovalIsComplete(db, c);
      hide FkValid, Stage, AccountsKept, LogsKept, TxosKept, MemosKept;
    }
  }

  /** No step ever breaks a foreign key, even when recording a submission stops half way. */
  lemma StepKeepsForeignKeys(w: World, a: AccountId, s: Step)
    requires FkValid(w.db)
    ensures FkValid(Apply(w, a, s).db)
  {
    hide FkValid, ScanChunk, LogBuilt, LogSigned, LogSubmitted, CreateNext, CreateAccount, RemoveAccount;
    match s
    case Append(block) =>
    case Sync(c) => ScanFk(w.db, w.ledger, c);
    case Build(p, c) => BuiltFk(w.db, p, c);
    case Sign(p, comment, c) => SignedFk(w.db, p, comment, c);
    case Submit(p, at, comment, c) => SubmittedFk(w.db, p, at, comment, c);
    case Assign(c) => AssignFk(w.db, w.ledger, c);
    case Resync(c) => ResyncFk(w.db, c);
    case Create(c, first, next, viewOnly, fog) => CreateFk(w.db, c, first, next, viewOnly, fog);
    case Remove(c) => RemoveFk(w.db, c);
  }
}
