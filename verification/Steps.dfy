/** The wallet as a state machine: its steps, when they are admissible, and what each keeps. */
module Steps {
  import opened Schema
  import opened Ledger
  import opened Logging
  import opened Addresses
  import opened Refinement
  import Removal

  datatype Step =
    | Append(block: Block)
    | Sync(account: AccountId)
    | Build(unsigned: UnsignedProposal, account: AccountId)
    | Sign(proposal: Proposal, comment: string, account: AccountId)
    | Submit(proposal: Proposal, submittedAt: nat, comment: string, account: AccountId)
    | Assign(account: AccountId)
    | Resync(account: AccountId)
    | Create(account: AccountId, first: nat, next: Option<u64>, viewOnly: bool, fog: bool)
    | Remove(account: AccountId)

  /** A surrounding transaction keeps nothing of a failed call. */
  function Commit(db: Db, r: Outcome): Db {
    if r.error.None? then r.db else db
  }

  function ResyncAccount(db: Db, c: AccountId): Db {
    if c in db.accounts then db.(accounts := db.accounts[c := db.accounts[c].(nextBlock := db.accounts[c].firstBlock)]) else db
  }

  /** The txos whose spent block the next assignment for `a` writes. */
  ghost function RepairsOf(db: Db, l: Chain, a: AccountId): set<TxoId> {
    if CreateNext(db, l, a).error.Some? || db.accounts[a].viewOnly then {}
    else
      var n := NextIndex(db, a).value;
      set id | id in db.txos && Explained(db.txos[id], a, n) && InLedger(l, ImageFor(db.txos[id], a, n))
  }

  ghost function AssignStep(w: World, a: AccountId, c: AccountId): World {
    w.(db := CreateNext(w.db, w.ledger, c).db,
       repaired := if c == a then w.repaired + RepairsOf(w.db, w.ledger, a) else w.repaired)
  }

  /** One step of the wallet; only recording a submission runs outside a transaction. */
  ghost function Apply(w: World, a: AccountId, s: Step): World {
    match s
    case Append(block) => w.(ledger := w.ledger + [block])
    case Sync(c) => SyncStep(w, a, c)
    case Build(p, c) => w.(db := Commit(w.db, LogBuilt(w.db, p, c)))
    case Sign(p, comment, c) => w.(db := Commit(w.db, LogSigned(w.db, p, comment, c)))
    case Submit(p, at, comment, c) => w.(db := LogSubmitted(w.db, p, at, comment, c).db)
    case Assign(c) => AssignStep(w, a, c)
    case Resync(c) => w.(db := ResyncAccount(w.db, c))
    case Create(c, first, next, viewOnly, fog) => w.(db := Commit(w.db, CreateAccount(w.db, c, first, next, viewOnly, fog)))
    case Remove(c) => w.(db := Removal.RemoveAccount(w.db, c).db)
  }

  /** The inputs of a proposal are unspent, addressed txos of the account; for `a`, with the key images already on record. */
  ghost predicate Usable(txos: map<TxoId, Txo>, a: AccountId, c: AccountId, ins: seq<InputTxo>) {
    forall x :: x in ins && x.txOut.id in txos ==>
      var row := txos[x.txOut.id];
      && row.account == Some(c) && row.spent.None? && row.subaddress.Some?
      && (c == a ==> row.keyImage == Some(x.keyImage))
  }

  ghost predicate UsableUnsigned(txos: map<TxoId, Txo>, c: AccountId, ins: seq<TxOut>) {
    forall x :: x in ins && x.id in txos ==>
      txos[x.id].account == Some(c) && txos[x.id].spent.None? && txos[x.id].subaddress.Some?
  }

  /** The proposal already has a log, so recording its submission touches no txo. */
  predicate Logged(db: Db, p: Proposal) {
    TransactionId(p.payload).Some? && TransactionId(p.payload).value in db.logs
  }

  /** The ledger stays valid, transactions spend what their account owns, and `a` itself is not removed. */
  ghost predicate Enabled(w: World, a: AccountId, s: Step) {
    match s
    case Append(block) => Valid(w.ledger + [block])
    case Sync(_) => true
    case Build(p, c) => UsableUnsigned(w.db.txos, c, p.inputs)
    case Sign(p, _, c) => Usable(w.db.txos, a, c, p.inputs)
    case Submit(p, _, _, c) => Logged(w.db, p) || Usable(w.db.txos, a, c, p.inputs)
    case Assign(_) => true
    case Resync(_) => true
    case Create(_, _, _, _, _) => true
    case Remove(c) => c != a
  }

  // ----- Recording logs -----

  /** Key images are written to rows of `c` only, and rows of `a` already hold theirs. */
  ghost predicate ImagesWritten(t: map<TxoId, Txo>, t': map<TxoId, Txo>, a: AccountId, c: AccountId) {
    && t'.Keys == t.Keys
    && forall id :: id in t ==> t'[id] == t[id] || (c != a && t[id].account == Some(c) && t'[id].account == Some(c))
  }

  lemma KeyImageWritten(db: Db, d: Db, a: AccountId, c: AccountId, ins: seq<InputTxo>, x: InputTxo)
    requires Usable(db.txos, a, c, ins) && x in ins && ImagesWritten(db.txos, d.txos, a, c)
    ensures ImagesWritten(db.txos, UpdateKeyImage(d, x.txOut.id, x.keyImage, None).txos, a, c)
  {
  }

  lemma {:induction false} UpdateImagesKeeps(db: Db, a: AccountId, c: AccountId, ins: seq<InputTxo>, all: seq<InputTxo>)
    requires Usable(db.txos, a, c, all) && ins <= all
    ensures var r := UpdateImages(db, ins); r == db.(txos := r.txos) && ImagesWritten(db.txos, r.txos, a, c)
  {
    if ins != [] {
      var init, last := ins[..|ins| - 1], ins[|ins| - 1];
      UpdateImagesKeeps(db, a, c, init, all);
      assert all[|ins| - 1] == last;
      KeyImageWritten(db, UpdateImages(db, init), a, c, all, last);
    }
  }

  /** New links join the log to existing, unspent, addressed txos of `c`. */
  ghost predicate NewLinks(db: Db, inputs: set<(LogId, TxoId)>, log: LogId, c: AccountId) {
    && db.inputs <= inputs
    && forall x :: x in inputs && x !in db.inputs ==>
         x.0 == log && x.1 in db.txos && db.txos[x.1].account == Some(c) && db.txos[x.1].subaddress.Some? && db.txos[x.1].spent.None?
  }

  lemma {:induction false} SignInputsKeeps(db: Db, log: LogId, a: AccountId, c: AccountId, ins: seq<InputTxo>, all: seq<InputTxo>)
    requires Usable(db.txos, a, c, all) && ins <= all
    ensures var r := SignInputs(db, log, ins).db;
      && r == db.(txos := r.txos, inputs := r.inputs)
      && ImagesWritten(db.txos, r.txos, a, c) && NewLinks(db, r.inputs, log, c)
  {
    if ins != [] {
      var init, last := ins[..|ins| - 1], ins[|ins| - 1];
      SignInputsKeeps(db, log, a, c, init, all);
      assert all[|ins| - 1] == last;
      KeyImageWritten(db, SignInputs(db, log, init).db, a, c, all, last);
    }
  }

  lemma {:induction false} LinkInputsKeeps(db: Db, log: LogId, c: AccountId, ins: seq<TxOut>)
    requires UsableUnsigned(db.txos, c, ins)
    ensures var r := LinkInputs(db, log, ins).db; r == db.(inputs := r.inputs) && NewLinks(db, r.inputs, log, c)
  {
    if ins != [] {
      assert ins[|ins| - 1] in ins && forall x :: x in ins[..|ins| - 1] ==> x in ins;
      LinkInputsKeeps(db, log, c, ins[..|ins| - 1]);
    }
  }

  /** New rows are unowned and unspent, and no other row changes. */
  ghost predicate RowsAdded(t: map<TxoId, Txo>, t': map<TxoId, Txo>) {
    && (forall id :: id in t ==> id in t' && t'[id] == t[id])
    && (forall id :: id in t' && id !in t ==> t'[id].account.None? && t'[id].spent.None?)
  }

  lemma {:induction false} AddOutputsKeeps(db: Db, log: LogId, outs: seq<OutputTxo>, isChange: bool)
    ensures var r := AddOutputs(db, log, outs, isChange).db;
      r == db.(txos := r.txos, outputs := r.outputs) && RowsAdded(db.txos, r.txos)
  {
    if outs != [] {
      AddOutputsKeeps(db, log, outs[..|outs| - 1], isChange);
    }
  }

  lemma AddAllOutputsKeeps(db: Db, log: LogId, payload: seq<OutputTxo>, change: seq<OutputTxo>)
    ensures var r := AddAllOutputs(db, log, payload, change).db;
      r == db.(txos := r.txos, outputs := r.outputs) && RowsAdded(db.txos, r.txos)
  {
    AddOutputsKeeps(db, log, payload, false);
    AddOutputsKeeps(AddOutputs(db, log, payload, false).db, log, change, true);
    hide AddOutputs;
  }

  /** Recording never changes whose log it is or how it ended, and never takes back a submission. */
  predicate SameVerdict(log: Log, log': Log) {
    && log'.account == log.account && log'.failed == log.failed && log'.finalized == log.finalized
    && (log.submitted.Some? ==> log'.submitted.Some?)
    && (log.tombstone.Some? ==> log'.tombstone.Some?)
  }

  /** Existing logs keep their verdict, and a new one is undecided and belongs to `c`. */
  ghost predicate LogsRecorded(logs: map<LogId, Log>, logs': map<LogId, Log>, c: AccountId) {
    && (forall l :: l in logs ==> l in logs' && SameVerdict(logs[l], logs'[l]))
    && (forall l :: l in logs' && l !in logs ==> logs'[l].account == c && !logs'[l].failed && logs'[l].finalized.None?)
  }

  /** What recording a log may do to the database. */
  ghost predicate Recorded(db: Db, db': Db, a: AccountId, c: AccountId) {
    && db' == db.(txos := db'.txos, logs := db'.logs, inputs := db'.inputs, outputs := db'.outputs)
    && TxoFrame(db.txos, db'.txos, a)
    && LogsRecorded(db.logs, db'.logs, c)
    && (db'.inputs == db.inputs || exists log :: log !in db.logs && log in db'.logs && NewLinks(db, db'.inputs, log, c))
  }

  lemma FrameOfParts(t0: map<TxoId, Txo>, t1: map<TxoId, Txo>, t2: map<TxoId, Txo>, a: AccountId, c: AccountId)
    requires ImagesWritten(t0, t1, a, c) && RowsAdded(t1, t2)
    ensures TxoFrame(t0, t2, a)
  {
  }

  lemma OneLogRecorded(logs: map<LogId, Log>, id: LogId, log: Log)
    requires id !in logs && !log.failed && log.finalized.None?
    ensures LogsRecorded(logs, logs[id := log], log.account)
  {
  }

  lemma NewLogRecorded(db: Db, p: Proposal, submitted: Option<nat>, comment: string, a: AccountId, c: AccountId, id: LogId)
    requires Usable(db.txos, a, c, p.inputs) && id !in db.logs
    ensures Recorded(db, NewLog(db, p, submitted, comment, c, id).db, a, c)
  {
    var log := Log(c, AsI64(p.fee), AsI64(p.feeToken), submitted, Some(AsI64(p.tombstone)), None, comment, p.tx, false);
    var db1 := db.(logs := db.logs[id := log]);
    SignInputsKeeps(db1, id, a, c, p.inputs, p.inputs);
    var d := SignInputs(db1, id, p.inputs).db;
    AddAllOutputsKeeps(d, id, p.payload, p.change);
    var d' := NewLog(db, p, submitted, comment, c, id).db;
    hide SignInputs, AddAllOutputs, ImagesWritten, RowsAdded, TxoFrame, Usable, LogsRecorded;
    RowsAddedNone(d.txos);
    FrameOfParts(db.txos, d.txos, d'.txos, a, c);
    OneLogRecorded(db.logs, id, log);
    assert NewLinks(db, d'.inputs, id, c);
  }

  lemma RowsAddedNone(t: map<TxoId, Txo>)
    ensures RowsAdded(t, t)
  {
  }

  lemma NewBuiltLogRecorded(db: Db, p: UnsignedProposal, a: AccountId, c: AccountId, id: LogId)
    requires UsableUnsigned(db.txos, c, p.inputs) && id !in db.logs
    ensures Recorded(db, NewBuiltLog(db, p, c, id).db, a, c)
  {
    var log := Log(c, AsI64(p.fee), AsI64(p.feeToken), None, None, None, "", [], false);
    var db1 := db.(logs := db.logs[id := log]);
    LinkInputsKeeps(db1, id, c, p.inputs);
    var d := LinkInputs(db1, id, p.inputs).db;
    AddAllOutputsKeeps(d, id, p.payload, p.change);
    var d' := NewBuiltLog(db, p, c, id).db;
    hide LinkInputs, AddAllOutputs, RowsAdded, TxoFrame, UsableUnsigned;
    RowsAddedNone(d.txos);
    FrameOfParts(db.txos, d.txos, d'.txos, a, c);
    assert NewLinks(db, d'.inputs, id, c);
  }

  lemma BuiltRecorded(db: Db, p: UnsignedProposal, a: AccountId, c: AccountId)
    requires UsableUnsigned(db.txos, c, p.inputs)
    ensures Recorded(db, LogBuilt(db, p, c).db, a, c)
  {
    hide NewBuiltLog, TransactionId;
    var id := TransactionId(p.payload);
    if c in db.accounts && id.Some? && id.value !in db.logs {
      NewBuiltLogRecorded(db, p, a, c, id.value);
    }
  }

  lemma SignedRecorded(db: Db, p: Proposal, comment: string, a: AccountId, c: AccountId)
    requires Usable(db.txos, a, c, p.inputs)
    ensures Recorded(db, LogSigned(db, p, comment, c).db, a, c)
  {
    hide NewLog, TransactionId;
    var id := TransactionId(p.payload);
    if c in db.accounts && id.Some? {
      if id.value in db.logs {
        UpdateImagesKeeps(db, a, c, p.inputs, p.inputs);
      } else {
        NewLogRecorded(db, p, None, comment, a, c, id.value);
      }
    }
  }

  lemma SubmittedRecorded(db: Db, p: Proposal, at: nat, comment: string, a: AccountId, c: AccountId)
    requires Logged(db, p) || Usable(db.txos, a, c, p.inputs)
    ensures Recorded(db, LogSubmitted(db, p, at, comment, c).db, a, c)
  {
    hide NewLog, TransactionId;
    var id := TransactionId(p.payload);
    if c in db.accounts && id.Some? && id.value !in db.logs {
      NewLogRecorded(db, p, Some(at), comment, a, c, id.value);
    }
  }

  lemma RecordedKeepsInv(w: World, db': Db, a: AccountId, c: AccountId)
    requires Inv(w, a) && Recorded(w.db, db', a, c)
    ensures Inv(w.(db := db'), a)
  {
    FrameKeepsInv(w, w.(db := db'), a);
  }

  // ----- Assigning, resyncing, creating and removing -----

  lemma AssignSelf(w: World, a: AccountId)
    requires Inv(w, a)
    ensures Inv(AssignStep(w, a, a), a)
  {
    var r := CreateNext(w.db, w.ledger, a);
    var w' := AssignStep(w, a, a);
    if r.error.None? {
      var n := NextIndex(w.db, a).value;
      assert w'.db.subaddresses == w.db.subaddresses[SpendKey(a, n) := Subaddress(a, AsI64(n))];
      forall i, o | Mine(w', a, i, o) ensures RowOk(w', a, i, o) {
        AssignKeepsRow(w, a, i, o);
      }
      forall id | id in w'.db.txos && w'.db.txos[id].account.Some? ensures Origin(w', a, w'.db.txos[id].account.value, id) {
        var c := w.db.txos[id].account.value;
        assert Origin(w, a, c, id);
        var i, o :| Has(w.ledger, i, o) && o.id == id && o.viewer == c && (c == a ==> Mine(w, a, i, o));
        assert c == a ==> Mine(w', a, i, o);
      }
    } else {
      assert w'.repaired == w.repaired;
    }
  }

  /** The block found for an output's public key is the output's own. */
  lemma OwnBlock(l: Chain, i: nat, o: TxOut)
    requires UniqueOutputs(l) && Has(l, i, o)
    ensures !Missing(l, o.publicKey) && BlockOf(l, o.publicKey) == i
  {
    assert Carries(l, i, o.publicKey);
    var b := BlockOf(l, o.publicKey);
    var p :| p in l[b].outputs && p.publicKey == o.publicKey;
    assert Has(l, b, p);
  }

  lemma AssignKeepsRow(w: World, a: AccountId, i: nat, o: TxOut)
    requires Inv(w, a) && CreateNext(w.db, w.ledger, a).error.None? && Mine(AssignStep(w, a, a), a, i, o)
    ensures RowOk(AssignStep(w, a, a), a, i, o)
  {
    var w' := AssignStep(w, a, a);
    var n := NextIndex(w.db, a).value;
    assert Mine(w, a, i, o);
    var row := w.db.txos[o.id];
    if o.targetKey == SpendKey(a, n) {
      assert Explained(row, a, n) && ImageFor(row, a, n) == ImageOf(o);
      assert w'.db.txos[o.id] == RepairedRow(row, w.ledger, a, n, true);
      OwnBlock(w.ledger, i, o);
    } else {
      assert w'.db.txos[o.id] == row;
      assert o.id !in RepairsOf(w.db, w.ledger, a);
    }
  }

  lemma RepairFrame(txos: map<TxoId, Txo>, l: Chain, a: AccountId, c: AccountId, n: u64, full: bool)
    requires Repairable(txos, l, c, n, full) && c != a
    ensures TxoFrame(txos, Repair(txos, l, c, n, full), a)
  {
  }

  lemma AssignFrame(db: Db, l: Chain, a: AccountId, c: AccountId)
    requires TableOk(db.subaddresses) && c != a
    ensures var d := CreateNext(db, l, c).db;
      && d == db.(txos := d.txos, subaddresses := d.subaddresses)
      && TxoFrame(db.txos, d.txos, a) && TableOk(d.subaddresses) && SameKeys(db.subaddresses, d.subaddresses, a)
  {
    hide Repair, Repairable, NextIndex;
    if CreateNext(db, l, c).error.None? {
      RepairFrame(db.txos, l, a, c, NextIndex(db, c).value, !db.accounts[c].viewOnly);
    }
  }

  lemma AssignOther(w: World, a: AccountId, c: AccountId)
    requires Inv(w, a) && c != a
    ensures Inv(AssignStep(w, a, c), a)
  {
    hide CreateNext, TxoFrame, RowsOk, OwnersOk, StraysOk;
    AssignFrame(w.db, w.ledger, a, c);
    FrameKeepsInv(w, AssignStep(w, a, c), a);
  }

  lemma ResyncKeepsInv(w: World, a: AccountId, c: AccountId)
    requires Inv(w, a)
    ensures Inv(w.(db := ResyncAccount(w.db, c)), a)
  {
    var w' := w.(db := ResyncAccount(w.db, c));
    assert forall i, o :: Mine(w', a, i, o) <==> Mine(w, a, i, o);
    forall id | id in w'.db.txos && w'.db.txos[id].account.Some? ensures Origin(w', a, w'.db.txos[id].account.value, id) {
      assert Origin(w, a, w.db.txos[id].account.value, id);
    }
  }

  lemma CreateKeepsInv(w: World, a: AccountId, c: AccountId, first: nat, next: Option<u64>, viewOnly: bool, fog: bool)
    requires Inv(w, a)
    ensures Inv(w.(db := Commit(w.db, CreateAccount(w.db, c, first, next, viewOnly, fog))), a)
  {
    if c !in w.db.accounts {
      var n: u64 := if next.Some? then next.value else DEFAULT_NEXT_SUBADDRESS_INDEX;
      InsertAllFrame(w.db.(accounts := w.db.accounts[c := Account(first, first, viewOnly, fog, false)]), c,
                     InitialIndices(viewOnly, fog, n));
      FrameKeepsInv(w, w.(db := Commit(w.db, CreateAccount(w.db, c, first, next, viewOnly, fog))), a);
    }
  }

  lemma RemoveKeepsInv(w: World, a: AccountId, c: AccountId)
    requires Inv(w, a) && c != a && Removal.FkValid(w.db)
    ensures Inv(w.(db := Removal.RemoveAccount(w.db, c).db), a)
  {
    if c in w.db.accounts {
      var w' := w.(db := Removal.RemoveAccount(w.db, c).db);
      Removal.RemovalIsComplete(w.db, c);
      hide Removal.RemoveAccount;
      forall id | id in w'.db.txos && w'.db.txos[id].account.Some? ensures Origin(w', a, w'.db.txos[id].account.value, id) {
        var v := w.db.txos[id].account.value;
        assert Origin(w, a, v, id);
        var i, o :| Has(w.ledger, i, o) && o.id == id && o.viewer == v && (v == a ==> Mine(w, a, i, o));
        assert v == a ==> Mine(w', a, i, o);
      }
      forall id | id in w'.db.txos && w'.db.txos[id].account.None? && w'.db.txos[id].spent.Some?
        ensures exists i, o :: Has(w.ledger, i, o) && o.id == id && o.viewer != a
      {
        if w.db.txos[id].account == Some(c) {
          assert Origin(w, a, c, id);
        }
      }
      RowsFrame(w, w', a);
    }
  }
}
