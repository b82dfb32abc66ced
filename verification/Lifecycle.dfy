/** The life of a transaction log over any run, whatever the ledger or the proposals contain. */
module Lifecycle {
  import opened Schema
  import opened Ledger
  import opened Scan
  import opened Logging
  import opened Refinement
  import opened Steps
  import Addresses
  import Removal

  /** The wallet after a run of steps. */
  ghost function Run(w: World, a: AccountId, steps: seq<Step>): World
    decreases |steps|
  {
    if steps == [] then w else Run(Apply(w, a, steps[0]), a, steps[1..])
  }

  /** A log is never both failed and finalised, is finalised only after submission, and fails only with a tombstone. */
  predicate Sound(log: Log) {
    && !(log.failed && log.finalized.Some?)
    && (log.finalized.Some? ==> log.submitted.Some?)
    && (log.failed ==> log.tombstone.Some?)
  }

  /** The five answers of the status, column by column; a log that was only signed reads as built. */
  lemma StatusExactly(log: Log)
    ensures Status(log) == Failed <==> log.failed
    ensures Status(log) == Succeeded <==> !log.failed && log.finalized.Some?
    ensures Status(log) == IsPending <==> !log.failed && log.finalized.None? && log.submitted.Some?
    ensures Status(log) == IsPending <==> Pending(log)
    ensures Status(log) == Built <==> !log.failed && log.finalized.None? && log.submitted.None?
  {
  }

  /** What may happen to a log: a decided one keeps its verdict, and a submission is never taken back. */
  predicate Evolves(log: Log, log': Log) {
    && log'.account == log.account
    && (Status(log) == Succeeded || Status(log) == Failed ==> Status(log') == Status(log) && log'.finalized == log.finalized)
    && (log.submitted.Some? ==> log'.submitted.Some?)
    && (log.tombstone.Some? ==> log'.tombstone.Some?)
  }

  ghost predicate AllSound(logs: map<LogId, Log>) {
    forall l :: l in logs ==> Sound(logs[l])
  }

  ghost predicate AllEvolve(logs: map<LogId, Log>, logs': map<LogId, Log>) {
    forall l :: l in logs ==> l in logs' && Evolves(logs[l], logs'[l])
  }

  // ----- One step -----

  lemma {:induction false} SignInputsLogs(db: Db, log: LogId, ins: seq<InputTxo>)
    ensures SignInputs(db, log, ins).db.logs == db.logs
  {
    if ins != [] {
      SignInputsLogs(db, log, ins[..|ins| - 1]);
    }
  }

  lemma AddAllOutputsLogs(db: Db, log: LogId, payload: seq<OutputTxo>, change: seq<OutputTxo>)
    ensures AddAllOutputs(db, log, payload, change).db.logs == db.logs
  {
    AddOutputsIgnoresLog(db, log, payload, false, db.logs);
    var d := AddOutputs(db, log, payload, false).db;
    AddOutputsIgnoresLog(d, log, change, true, d.logs);
  }

  lemma NewLogLogs(db: Db, p: Proposal, submitted: Option<nat>, comment: string, a: AccountId, id: LogId)
    ensures NewLog(db, p, submitted, comment, a, id).db.logs == db.logs[id :=
      Log(a, AsI64(p.fee), AsI64(p.feeToken), submitted, Some(AsI64(p.tombstone)), None, comment, p.tx, false)]
  {
    var db1 := db.(logs := db.logs[id :=
      Log(a, AsI64(p.fee), AsI64(p.feeToken), submitted, Some(AsI64(p.tombstone)), None, comment, p.tx, false)]);
    SignInputsLogs(db1, id, p.inputs);
    AddAllOutputsLogs(SignInputs(db1, id, p.inputs).db, id, p.payload, p.change);
  }

  lemma NewBuiltLogLogs(db: Db, p: UnsignedProposal, a: AccountId, id: LogId)
    ensures NewBuiltLog(db, p, a, id).db.logs == db.logs[id := Log(a, AsI64(p.fee), AsI64(p.feeToken), None, None, None, "", [], false)]
  {
    var db1 := db.(logs := db.logs[id := Log(a, AsI64(p.fee), AsI64(p.feeToken), None, None, None, "", [], false)]);
    LinkInputsIgnoresLog(db1, id, p.inputs, db1.logs);
    AddAllOutputsLogs(LinkInputs(db1, id, p.inputs).db, id, p.payload, p.change);
  }

  lemma BuildEvolves(db: Db, p: UnsignedProposal, c: AccountId)
    requires AllSound(db.logs)
    ensures AllSound(LogBuilt(db, p, c).db.logs) && AllEvolve(db.logs, LogBuilt(db, p, c).db.logs)
  {
    hide NewBuiltLog, TransactionId;
    var id := TransactionId(p.payload);
    if id.Some? {
      NewBuiltLogLogs(db, p, c, id.value);
    }
  }

  lemma SignEvolves(db: Db, p: Proposal, comment: string, c: AccountId)
    requires AllSound(db.logs)
    ensures AllSound(LogSigned(db, p, comment, c).db.logs) && AllEvolve(db.logs, LogSigned(db, p, comment, c).db.logs)
  {
    hide NewLog, TransactionId;
    UpdateImagesFrame(db, p.inputs);
    var id := TransactionId(p.payload);
    if id.Some? {
      NewLogLogs(db, p, None, comment, c, id.value);
    }
  }

  lemma SubmitEvolves(db: Db, p: Proposal, at: nat, comment: string, c: AccountId)
    requires AllSound(db.logs)
    ensures AllSound(LogSubmitted(db, p, at, comment, c).db.logs) && AllEvolve(db.logs, LogSubmitted(db, p, at, comment, c).db.logs)
  {
    hide NewLog, TransactionId;
    var id := TransactionId(p.payload);
    if id.Some? {
      NewLogLogs(db, p, Some(at), comment, c, id.value);
    }
  }

  lemma ScanEvolves(db: Db, l: Chain, c: AccountId)
    requires AllSound(db.logs)
    ensures AllSound(ScanChunk(db, l, c).logs) && AllEvolve(db.logs, ScanChunk(db, l, c).logs)
  {
    if c in db.accounts && db.accounts[c].nextBlock < |l| {
      forall log ensures log in db.logs ==> log in ScanChunk(db, l, c).logs && Evolves(db.logs[log], ScanChunk(db, l, c).logs[log])
        ensures log in ScanChunk(db, l, c).logs ==> Sound(ScanChunk(db, l, c).logs[log])
      {
        ScanLog(db, l, c, log);
      }
    }
  }

  lemma StepEvolves(w: World, a: AccountId, s: Step)
    requires AllSound(w.db.logs)
    ensures AllSound(Apply(w, a, s).db.logs)
    ensures !s.Remove? ==> AllEvolve(w.db.logs, Apply(w, a, s).db.logs)
  {
    EvolvesSelf(w.db.logs);
    hide ScanChunk, LogBuilt, LogSigned, LogSubmitted, Addresses.CreateNext, Addresses.CreateAccount, AllSound, AllEvolve;
    match s
    case Sync(c) => ScanEvolves(w.db, w.ledger, c);
    case Build(p, c) => BuildEvolves(w.db, p, c);
    case Sign(p, comment, c) => SignEvolves(w.db, p, comment, c);
    case Submit(p, at, comment, c) => SubmitEvolves(w.db, p, at, comment, c);
    case Create(c, first, next, viewOnly, fog) => CreateLeavesLogs(w.db, c, first, next, viewOnly, fog);
    case Remove(c) => RemoveKeepsSound(w.db, c);
    case Append(_) =>
    case Assign(c) => AssignLeavesLogs(w.db, w.ledger, c);
    case Resync(_) =>
  }

  lemma EvolvesSelf(logs: map<LogId, Log>)
    ensures AllEvolve(logs, logs)
  {
  }

  lemma RemoveKeepsSound(db: Db, c: AccountId)
    requires AllSound(db.logs)
    ensures AllSound(Removal.RemoveAccount(db, c).db.logs)
  {
    if c in db.accounts {
      Removal.StageKeepsLogs(db, c, 9);
      hide Removal.Stage;
    }
  }

  lemma AssignLeavesLogs(db: Db, l: Chain, c: AccountId)
    ensures Addresses.CreateNext(db, l, c).db.logs == db.logs
  {
    hide Addresses.NextIndex, Addresses.Repairable, Addresses.Repair;
  }

  lemma {:induction false} InsertSubaddressesLeavesLogs(db: Db, c: AccountId, indices: seq<u64>)
    ensures Addresses.InsertSubaddresses(db, c, indices).db.logs == db.logs
  {
    if indices != [] {
      InsertSubaddressesLeavesLogs(db, c, indices[..|indices| - 1]);
    }
  }

  lemma CreateLeavesLogs(db: Db, c: AccountId, first: nat, next: Option<u64>, viewOnly: bool, fog: bool)
    ensures Addresses.CreateAccount(db, c, first, next, viewOnly, fog).db.logs == db.logs
  {
    var n: u64 := if next.Some? then next.value else Addresses.DEFAULT_NEXT_SUBADDRESS_INDEX;
    InsertSubaddressesLeavesLogs(db.(accounts := db.accounts[c := Account(first, first, viewOnly, fog, false)]), c,
                                 Addresses.InitialIndices(viewOnly, fog, n));
  }

  // ----- Every run -----

  /** Over any run logs stay sound, and without removals Succeeded and Failed are final and no log is lost. */
  lemma {:induction false} RunEvolves(w: World, a: AccountId, steps: seq<Step>)
    requires AllSound(w.db.logs)
    ensures AllSound(Run(w, a, steps).db.logs)
    ensures (forall s :: s in steps ==> !s.Remove?) ==> AllEvolve(w.db.logs, Run(w, a, steps).db.logs)
    decreases |steps|
  {
    if steps != [] {
      var w1 := Apply(w, a, steps[0]);
      StepEvolves(w, a, steps[0]);
      RunEvolves(w1, a, steps[1..]);
      if forall s :: s in steps ==> !s.Remove? {
        assert forall s :: s in steps[1..] ==> s in steps;
        hide Apply;
        EvolvesTrans(w.db.logs, w1.db.logs, Run(w, a, steps).db.logs);
      }
    }
  }

  lemma EvolvesTrans(l0: map<LogId, Log>, l1: map<LogId, Log>, l2: map<LogId, Log>)
    requires AllEvolve(l0, l1) && AllEvolve(l1, l2)
    ensures AllEvolve(l0, l2)
  {
  }

  /** A log that was only built can be re-read at any later time: without a tombstone it has not failed. */
  lemma BuiltCannotFail(w: World, a: AccountId, steps: seq<Step>, l: LogId)
    requires AllSound(w.db.logs) && l in Run(w, a, steps).db.logs
    ensures Run(w, a, steps).db.logs[l].tombstone.None? ==> Status(Run(w, a, steps).db.logs[l]) != Failed
    ensures Status(Run(w, a, steps).db.logs[l]) == Succeeded ==> Run(w, a, steps).db.logs[l].submitted.Some?
  {
    RunEvolves(w, a, steps);
  }
}
