/** The addresses of an account, full or view-only, over every run. */
module AddressRuns {
  import opened Schema
  import opened Ledger
  import opened Scan
  import opened Logging
  import opened Addresses
  import opened Refinement
  import opened Steps
  import opened Lifecycle
  import opened Runs
  import Integrity
  import Removal

  /** How many assignments of the run gave `a` an address. */
  ghost function Assigned(w: World, a: AccountId, steps: seq<Step>): nat
    decreases |steps|
  {
    if steps == [] then 0
    else
      (if steps[0] == Assign(a) && CreateNext(w.db, w.ledger, a).error.None? then 1 else 0)
      + Assigned(Apply(w, a, steps[0]), a, steps[1..])
  }

  lemma {:induction false} SignInputsTouch(db: Db, log: LogId, ins: seq<InputTxo>)
    ensures var r := SignInputs(db, log, ins).db; r == db.(txos := r.txos, inputs := r.inputs)
  {
    if ins != [] {
      SignInputsTouch(db, log, ins[..|ins| - 1]);
    }
  }

  lemma {:induction false} LinkInputsTouch(db: Db, log: LogId, ins: seq<TxOut>)
    ensures var r := LinkInputs(db, log, ins).db; r == db.(inputs := r.inputs)
  {
    if ins != [] {
      LinkInputsTouch(db, log, ins[..|ins| - 1]);
    }
  }

  lemma NewLogTouches(db: Db, p: Proposal, submitted: Option<nat>, comment: string, c: AccountId, id: LogId)
    ensures var d := NewLog(db, p, submitted, comment, c, id).db; d.accounts == db.accounts && d.subaddresses == db.subaddresses
  {
    var log := Log(c, AsI64(p.fee), AsI64(p.feeToken), submitted, Some(AsI64(p.tombstone)), None, comment, p.tx, false);
    var db1 := db.(logs := db.logs[id := log]);
    SignInputsTouch(db1, id, p.inputs);
    AddAllOutputsKeeps(SignInputs(db1, id, p.inputs).db, id, p.payload, p.change);
    hide SignInputs, AddAllOutputs;
  }

  lemma NewBuiltLogTouches(db: Db, p: UnsignedProposal, c: AccountId, id: LogId)
    ensures var d := NewBuiltLog(db, p, c, id).db; d.accounts == db.accounts && d.subaddresses == db.subaddresses
  {
    var log := Log(c, AsI64(p.fee), AsI64(p.feeToken), None, None, None, "", [], false);
    var db1 := db.(logs := db.logs[id := log]);
    LinkInputsTouch(db1, id, p.inputs);
    AddAllOutputsKeeps(LinkInputs(db1, id, p.inputs).db, id, p.payload, p.change);
    hide LinkInputs, AddAllOutputs;
  }

  /** Recording any proposal whatever touches neither accounts nor subaddresses. */
  lemma RecordTouches(w: World, a: AccountId, s: Step)
    requires s.Build? || s.Sign? || s.Submit?
    ensures var d := Apply(w, a, s).db; d.accounts == w.db.accounts && d.subaddresses == w.db.subaddresses
  {
    hide NewLog, NewBuiltLog, TransactionId, UpdateImages;
    match s {
      case Build(p, c) =>
        if TransactionId(p.payload).Some? {
          NewBuiltLogTouches(w.db, p, c, TransactionId(p.payload).value);
        }
      case Sign(p, comment, c) =>
        UpdateImagesFrame(w.db, p.inputs);
        if TransactionId(p.payload).Some? {
          NewLogTouches(w.db, p, None, comment, c, TransactionId(p.payload).value);
        }
      case Submit(p, at, comment, c) =>
        if TransactionId(p.payload).Some? {
          NewLogTouches(w.db, p, Some(at), comment, c, TransactionId(p.payload).value);
        }
    }
  }

  lemma CreateKeepsKeys(db: Db, a: AccountId, c: AccountId, first: nat, next: Option<u64>, viewOnly: bool, fog: bool)
    requires TableOk(db.subaddresses) && c != a
    ensures var d := CreateAccount(db, c, first, next, viewOnly, fog).db;
      TableOk(d.subaddresses) && SameKeys(db.subaddresses, d.subaddresses, a)
  {
    var n: u64 := if next.Some? then next.value else DEFAULT_NEXT_SUBADDRESS_INDEX;
    InsertAllFrame(db.(accounts := db.accounts[c := Account(first, first, viewOnly, fog, false)]), c, InitialIndices(viewOnly, fog, n));
    hide InsertSubaddresses, TableOk;
  }

  lemma RemoveKeepsKeys(db: Db, a: AccountId, c: AccountId)
    requires Removal.FkValid(db) && TableOk(db.subaddresses) && c != a && a in db.accounts
    ensures var d := Removal.RemoveAccount(db, c).db;
      a in d.accounts && TableOk(d.subaddresses) && SameKeys(db.subaddresses, d.subaddresses, a)
  {
    if c in db.accounts {
      Removal.RemovalIsComplete(db, c);
      hide Removal.RemoveAccount, Removal.FkValid, Removal.TxosKept, Removal.LogsKept, Removal.MemosKept;
      assert forall k :: k in db.subaddresses && k.account == a ==> db.subaddresses[k].account != c;
    }
  }

  /** Steps other than its own assignments leave the addresses of `a` alone. */
  lemma StepKeepsKeys(w: World, a: AccountId, s: Step)
    requires Removal.FkValid(w.db) && TableOk(w.db.subaddresses) && a in w.db.accounts && s != Assign(a) && s != Remove(a)
    ensures var d := Apply(w, a, s).db; a in d.accounts && TableOk(d.subaddresses) && SameKeys(w.db.subaddresses, d.subaddresses, a)
  {
    hide Removal.FkValid, TableOk, SameKeys, CreateNext, CreateAccount, Removal.RemoveAccount, ScanChunk, LogBuilt, LogSigned, LogSubmitted;
    SameKeysSelf(w.db.subaddresses, a);
    match s
    case Append(_) =>
    case Sync(c) => ScanKeepsAddresses(w.db, w.ledger, c);
    case Build(_, _) => RecordTouches(w, a, s);
    case Sign(_, _, _) => RecordTouches(w, a, s);
    case Submit(_, _, _, _) => RecordTouches(w, a, s);
    case Assign(c) => AssignFrame(w.db, w.ledger, a, c);
    case Resync(_) =>
    case Create(c, first, next, viewOnly, fog) =>
      CreateTouchesOne(w.db, c, first, next, viewOnly, fog);
      if c != a {
        CreateKeepsKeys(w.db, a, c, first, next, viewOnly, fog);
      }
    case Remove(c) => RemoveKeepsKeys(w.db, a, c);
  }

  lemma SameKeysSelf(subs: map<SpendKey, Subaddress>, a: AccountId)
    ensures SameKeys(subs, subs, a)
  {
  }

  lemma ScanKeepsAddresses(db: Db, l: Chain, c: AccountId)
    ensures ScanChunk(db, l, c).subaddresses == db.subaddresses && ScanChunk(db, l, c).accounts.Keys == db.accounts.Keys
  {
  }

  lemma StepKeepsGapFree(w: World, a: AccountId, s: Step, m: nat)
    requires s != Remove(a) && Removal.FkValid(w.db) && a in w.db.accounts
    requires GapFree(w.db.subaddresses, a, m) && 1 <= m <= SIGN_BIT
    ensures var d := Apply(w, a, s).db;
      a in d.accounts && GapFree(d.subaddresses, a, if s == Assign(a) && CreateNext(w.db, w.ledger, a).error.None? then OneMore(m) else m)
  {
    hide Removal.FkValid, CreateNext;
    if s != Assign(a) {
      StepKeepsKeys(w, a, s);
      SameKeysGapFree(w.db.subaddresses, Apply(w, a, s).db.subaddresses, a, m);
    } else {
      AssignKeepsAccounts(w.db, w.ledger, a);
      if CreateNext(w.db, w.ledger, a).error.None? {
        AssignKeepsGapFree(w.db, w.ledger, a, m);
      }
    }
  }

  lemma AssignKeepsAccounts(db: Db, l: Chain, a: AccountId)
    ensures var r := CreateNext(db, l, a); r.db.accounts == db.accounts && (r.error.Some? ==> r.db == db)
  {
    hide Repair, Repairable, NextIndex;
  }

  /**
   Gap-free addresses: after any run that does not remove the account, the non-negative indices of the account are exactly
   0 to m + k - 1, where k counts the successful assignments, up to the sign bit of the column.
   */
  lemma {:induction false} RunKeepsGapFree(w: World, a: AccountId, steps: seq<Step>, m: nat)
    requires Removal.FkValid(w.db) && a in w.db.accounts && forall s :: s in steps ==> s != Remove(a)
    requires GapFree(w.db.subaddresses, a, m) && 1 <= m <= SIGN_BIT
    ensures var k := m + Assigned(w, a, steps);
      GapFree(Run(w, a, steps).db.subaddresses, a, if k < SIGN_BIT then k else SIGN_BIT)
    decreases |steps|
  {
    hide Apply, Removal.FkValid, GapFree, CreateNext;
    if steps != [] {
      assert steps[0] in steps && forall s :: s in steps[1..] ==> s in steps;
      Integrity.StepKeepsForeignKeys(w, a, steps[0]);
      StepKeepsGapFree(w, a, steps[0], m);
      RunKeepsGapFree(Apply(w, a, steps[0]), a, steps[1..],
                      if steps[0] == Assign(a) && CreateNext(w.db, w.ledger, a).error.None? then OneMore(m) else m);
    }
  }
}
