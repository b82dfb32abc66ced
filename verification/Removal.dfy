/** Removing an account, statement by statement, with foreign keys enforced after each statement. */
module Removal {
  import opened Schema

  // ----- Foreign keys -----

  ghost predicate SubaddressesOk(db: Db) {
    forall k :: k in db.subaddresses ==> db.subaddresses[k].account in db.accounts
  }

  ghost predicate TxosOk(db: Db) {
    forall id :: id in db.txos && db.txos[id].account.Some? ==> db.txos[id].account.value in db.accounts
  }

  ghost predicate LogsOk(db: Db) {
    forall l :: l in db.logs ==> db.logs[l].account in db.accounts
  }

  ghost predicate InputsOk(db: Db) {
    forall x :: x in db.inputs ==> x.0 in db.logs && x.1 in db.txos
  }

  ghost predicate OutputsOk(db: Db) {
    forall x :: x in db.outputs ==> x.0 in db.logs && x.1 in db.txos
  }

  /** Every reference between the tables points at a row. */
  ghost predicate FkValid(db: Db) {
    && SubaddressesOk(db) && TxosOk(db) && LogsOk(db) && InputsOk(db) && OutputsOk(db)
    && db.senderMemos <= db.txos.Keys && db.destinationMemos <= db.txos.Keys
  }

  // ----- The statements of `delete` -----

  predicate LogOf(db: Db, l: LogId, a: AccountId) {
    l in db.logs && db.logs[l].account == a
  }

  function DeleteInputs(db: Db, a: AccountId): Db {
    db.(inputs := set x | x in db.inputs && !LogOf(db, x.0, a))
  }

  function DeleteOutputs(db: Db, a: AccountId): Db {
    db.(outputs := map x | x in db.outputs && !LogOf(db, x.0, a) :: db.outputs[x])
  }

  function DeleteLogs(db: Db, a: AccountId): Db {
    db.(logs := map l | l in db.logs && db.logs[l].account != a :: db.logs[l])
  }

  function DeleteSubaddresses(db: Db, a: AccountId): Db {
    db.(subaddresses := map k | k in db.subaddresses && db.subaddresses[k].account != a :: db.subaddresses[k])
  }

  function ScrubRow(row: Txo, a: AccountId): Txo {
    if row.account == Some(a) then row.(account := None) else row
  }

  function ScrubAccount(db: Db, a: AccountId): Db {
    db.(txos := map id | id in db.txos :: ScrubRow(db.txos[id], a))
  }

  function DeleteAccountRow(db: Db, a: AccountId): Db {
    db.(accounts := db.accounts - {a})
  }

  predicate Referenced(db: Db, id: TxoId) {
    (exists x :: x in db.inputs && x.1 == id) || (exists x :: x in db.outputs && x.1 == id)
  }

  /** Txos without an owner that no log uses as input or output. */
  function Unreferenced(db: Db): set<TxoId> {
    set id | id in db.txos && db.txos[id].account.None? && !Referenced(db, id)
  }

  function DeleteSenderMemos(db: Db): Db {
    db.(senderMemos := db.senderMemos - Unreferenced(db))
  }

  function DeleteDestinationMemos(db: Db): Db {
    db.(destinationMemos := db.destinationMemos - Unreferenced(db))
  }

  function DeleteTxos(db: Db): Db {
    db.(txos := db.txos - Unreferenced(db))
  }

  function Statement(d: Db, a: AccountId, n: nat): Db
    requires 1 <= n <= 9
  {
    match n
    case 1 => DeleteInputs(d, a)
    case 2 => DeleteOutputs(d, a)
    case 3 => DeleteLogs(d, a)
    case 4 => DeleteSubaddresses(d, a)
    case 5 => ScrubAccount(d, a)
    case 6 => DeleteAccountRow(d, a)
    case 7 => DeleteSenderMemos(d)
    case 8 => DeleteDestinationMemos(d)
    case _ => DeleteTxos(d)
  }

  /** The database after the first `n` statements. */
  function Stage(db: Db, a: AccountId, n: nat): Db
    requires n <= 9
  {
    if n == 0 then db else Statement(Stage(db, a, n - 1), a, n)
  }

  function RemoveAccount(db: Db, a: AccountId): Outcome {
    if a in db.accounts then Outcome(Stage(db, a, 9), None) else Outcome(db, Some(AccountNotFound))
  }

  /** The nine statements, one after the other. */
  lemma StagesInOrder(db: Db, a: AccountId)
    ensures Stage(db, a, 9) ==
      DeleteTxos(DeleteDestinationMemos(DeleteSenderMemos(
        DeleteAccountRow(ScrubAccount(DeleteSubaddresses(
          DeleteLogs(DeleteOutputs(DeleteInputs(db, a), a), a), a), a), a))))
  {
    hide DeleteInputs, DeleteOutputs, DeleteLogs, DeleteSubaddresses, ScrubAccount, DeleteAccountRow, DeleteSenderMemos,
      DeleteDestinationMemos, DeleteTxos;
    assert Stage(db, a, 3) == DeleteLogs(DeleteOutputs(DeleteInputs(db, a), a), a) by {
      assert Stage(db, a, 1) == DeleteInputs(Stage(db, a, 0), a);
      assert Stage(db, a, 2) == DeleteOutputs(Stage(db, a, 1), a);
    }
    assert Stage(db, a, 4) == DeleteSubaddresses(Stage(db, a, 3), a);
    assert Stage(db, a, 5) == ScrubAccount(Stage(db, a, 4), a);
    assert Stage(db, a, 6) == DeleteAccountRow(Stage(db, a, 5), a);
    assert Stage(db, a, 7) == DeleteSenderMemos(Stage(db, a, 6));
    assert Stage(db, a, 8) == DeleteDestinationMemos(Stage(db, a, 7));
    assert Stage(db, a, 9) == DeleteTxos(Stage(db, a, 8));
  }

  // ----- What is gone after each statement -----

  ghost predicate Cleared(d: Db, a: AccountId, n: nat) {
    && (n >= 1 ==> forall x :: x in d.inputs ==> !LogOf(d, x.0, a))
    && (n >= 2 ==> forall x :: x in d.outputs ==> !LogOf(d, x.0, a))
    && (n >= 3 ==> forall l :: l in d.logs ==> d.logs[l].account != a)
    && (n >= 4 ==> forall k :: k in d.subaddresses ==> d.subaddresses[k].account != a)
    && (n >= 5 ==> forall id :: id in d.txos ==> d.txos[id].account != Some(a))
    && (n >= 6 ==> a !in d.accounts)
    && (n >= 7 ==> d.senderMemos !! Unreferenced(d))
    && (n >= 8 ==> d.destinationMemos !! Unreferenced(d))
    && (n >= 9 ==> Unreferenced(d) == {})
  }

  lemma LogStatementsKeep(d: Db, a: AccountId, n: nat)
    requires 1 <= n <= 3 && FkValid(d) && Cleared(d, a, n - 1)
    ensures FkValid(Statement(d, a, n)) && Cleared(Statement(d, a, n), a, n)
  {
  }

  lemma AccountStatementsKeep(d: Db, a: AccountId, n: nat)
    requires 4 <= n <= 6 && FkValid(d) && Cleared(d, a, n - 1)
    ensures FkValid(Statement(d, a, n)) && Cleared(Statement(d, a, n), a, n)
  {
  }

  lemma MemoStatementsKeep(d: Db, a: AccountId, n: nat)
    requires 7 <= n <= 8 && FkValid(d) && Cleared(d, a, n - 1)
    ensures FkValid(Statement(d, a, n)) && Cleared(Statement(d, a, n), a, n)
  {
    assert Unreferenced(Statement(d, a, n)) == Unreferenced(d);
  }

  lemma TxoStatementKeeps(d: Db, a: AccountId)
    requires FkValid(d) && Cleared(d, a, 8)
    ensures FkValid(Statement(d, a, 9)) && Cleared(Statement(d, a, 9), a, 9)
  {
    var gone := Unreferenced(d);
    forall x | x in d.inputs ensures x.1 !in gone {
      assert Referenced(d, x.1);
    }
    forall x | x in d.outputs ensures x.1 !in gone {
      assert Referenced(d, x.1);
    }
  }

  /** No statement of the removal ever breaks a foreign key, and each leaves nothing of what it deletes. */
  lemma {:induction false} EveryStatementKeepsForeignKeys(db: Db, a: AccountId, n: nat)
    requires FkValid(db) && n <= 9
    ensures FkValid(Stage(db, a, n)) && Cleared(Stage(db, a, n), a, n)
  {
    if n > 0 {
      EveryStatementKeepsForeignKeys(db, a, n - 1);
      hide FkValid, Cleared, Statement;
      var d := Stage(db, a, n - 1);
      if n <= 3 {
        LogStatementsKeep(d, a, n);
      } else if n <= 6 {
        AccountStatementsKeep(d, a, n);
      } else if n <= 8 {
        MemoStatementsKeep(d, a, n);
      } else {
        TxoStatementKeeps(d, a);
      }
    }
  }

  // ----- What is kept -----

  /** A link of a log that belongs to another account. */
  predicate Foreign(db: Db, a: AccountId, x: (LogId, TxoId)) {
    x.0 in db.logs && db.logs[x.0].account != a
  }

  ghost predicate LogsKept(db: Db, d: Db, a: AccountId) {
    && (forall l :: l in db.logs && db.logs[l].account != a ==> l in d.logs && d.logs[l] == db.logs[l])
    && (forall l :: l in d.logs ==> l in db.logs && d.logs[l] == db.logs[l])
    && (forall x :: x in db.inputs && Foreign(db, a, x) ==> x in d.inputs)
    && (forall x :: x in db.outputs && Foreign(db, a, x) ==> x in d.outputs)
    && d.inputs <= db.inputs
    && (forall x :: x in d.outputs ==> x in db.outputs && d.outputs[x] == db.outputs[x])
  }

  ghost predicate AccountsKept(db: Db, d: Db, a: AccountId) {
    && (forall b :: b != a && b in db.accounts ==> b in d.accounts && d.accounts[b] == db.accounts[b])
    && d.accounts.Keys <= db.accounts.Keys
    && (forall k :: k in db.subaddresses && db.subaddresses[k].account != a ==>
          k in d.subaddresses && d.subaddresses[k] == db.subaddresses[k])
    && (forall k :: k in d.subaddresses ==> k in db.subaddresses && d.subaddresses[k] == db.subaddresses[k])
  }

  ghost predicate TxosKept(db: Db, d: Db, a: AccountId) {
    && d.txos.Keys <= db.txos.Keys
    && (forall id :: id in d.txos ==>
          d.txos[id] == db.txos[id] || (db.txos[id].account == Some(a) && d.txos[id] == db.txos[id].(account := None)))
    && (forall id :: id in db.txos && db.txos[id].account.Some? && db.txos[id].account != Some(a) ==>
          id in d.txos && d.txos[id] == db.txos[id])
    && (forall x :: x in db.inputs && Foreign(db, a, x) ==> x.1 in d.txos)
    && (forall x :: x in db.outputs && Foreign(db, a, x) ==> x.1 in d.txos)
  }

  ghost predicate MemosKept(db: Db, d: Db) {
    && d.senderMemos <= db.senderMemos && d.destinationMemos <= db.destinationMemos
    && (forall id :: id in d.txos && id in db.senderMemos && id !in Unreferenced(d) ==> id in d.senderMemos)
    && (forall id :: id in d.txos && id in db.destinationMemos && id !in Unreferenced(d) ==> id in d.destinationMemos)
  }

  /** Which tables a statement leaves alone. */
  lemma StatementFrame(d: Db, a: AccountId, n: nat)
    requires 1 <= n <= 9
    ensures var d' := Statement(d, a, n);
      && (n > 3 ==> d'.logs == d.logs && d'.inputs == d.inputs && d'.outputs == d.outputs)
      && (n != 4 && n != 6 ==> d'.accounts == d.accounts && d'.subaddresses == d.subaddresses)
      && (n != 5 && n != 9 ==> d'.txos == d.txos)
      && (n < 7 ==> d'.senderMemos == d.senderMemos && d'.destinationMemos == d.destinationMemos)
  {
  }

  lemma DeleteInputsKeepsLogs(db: Db, d: Db, a: AccountId)
    requires LogsKept(db, d, a)
    ensures LogsKept(db, DeleteInputs(d, a), a)
  {
  }

  lemma DeleteOutputsKeepsLogs(db: Db, d: Db, a: AccountId)
    requires LogsKept(db, d, a)
    ensures LogsKept(db, DeleteOutputs(d, a), a)
  {
  }

  lemma DeleteLogsKeepsLogs(db: Db, d: Db, a: AccountId)
    requires LogsKept(db, d, a)
    ensures LogsKept(db, DeleteLogs(d, a), a)
  {
  }

  lemma LogStatementKeepsLogs(db: Db, d: Db, a: AccountId, n: nat)
    requires 1 <= n <= 3 && LogsKept(db, d, a)
    ensures LogsKept(db, Statement(d, a, n), a)
  {
    hide LogsKept, DeleteInputs, DeleteOutputs, DeleteLogs;
    DeleteInputsKeepsLogs(db, d, a);
    DeleteOutputsKeepsLogs(db, d, a);
    DeleteLogsKeepsLogs(db, d, a);
  }

  lemma {:induction false} StageKeepsLogs(db: Db, a: AccountId, n: nat)
    requires n <= 9
    ensures LogsKept(db, Stage(db, a, n), a)
  {
    if n > 0 {
      hide Statement;
      StageKeepsLogs(db, a, n - 1);
      StatementFrame(Stage(db, a, n - 1), a, n);
      if n <= 3 {
        hide LogsKept;
        LogStatementKeepsLogs(db, Stage(db, a, n - 1), a, n);
      }
    }
  }

  lemma AccountStatementKeepsAccounts(db: Db, d: Db, a: AccountId, n: nat)
    requires (n == 4 || n == 6) && AccountsKept(db, d, a)
    ensures AccountsKept(db, Statement(d, a, n), a)
  {
  }

  lemma {:induction false} StageKeepsAccounts(db: Db, a: AccountId, n: nat)
    requires n <= 9
    ensures AccountsKept(db, Stage(db, a, n), a)
  {
    if n > 0 {
      hide Statement;
      StageKeepsAccounts(db, a, n - 1);
      StatementFrame(Stage(db, a, n - 1), a, n);
      if n == 4 || n == 6 {
        hide AccountsKept;
        AccountStatementKeepsAccounts(db, Stage(db, a, n - 1), a, n);
      }
    }
  }

  lemma ScrubKeepsTxos(db: Db, d: Db, a: AccountId)
    requires TxosKept(db, d, a)
    ensures TxosKept(db, Statement(d, a, 5), a)
  {
  }

  lemma DeleteTxosKeeps(db: Db, d: Db, a: AccountId)
    requires TxosKept(db, d, a) && LogsKept(db, d, a)
    ensures TxosKept(db, Statement(d, a, 9), a)
  {
    forall x | x in db.inputs && Foreign(db, a, x) ensures x.1 !in Unreferenced(d) {
      assert Referenced(d, x.1);
    }
    forall x | x in db.outputs && Foreign(db, a, x) ensures x.1 !in Unreferenced(d) {
      assert Referenced(d, x.1);
    }
  }

  lemma {:induction false} StageKeepsTxos(db: Db, a: AccountId, n: nat)
    requires FkValid(db) && n <= 9
    ensures TxosKept(db, Stage(db, a, n), a)
  {
    if n > 0 {
      hide Statement;
      StageKeepsTxos(db, a, n - 1);
      var d := Stage(db, a, n - 1);
      StatementFrame(d, a, n);
      if n == 5 {
        ScrubKeepsTxos(db, d, a);
      } else if n == 9 {
        StageKeepsLogs(db, a, 8);
        DeleteTxosKeeps(db, d, a);
      }
    }
  }

  /** Memos are not touched before the last three statements, and then only with their txo. */
  lemma StageKeepsMemos(db: Db, a: AccountId)
    ensures MemosKept(db, Stage(db, a, 9))
  {
    MemosUntouched(db, a, 6);
    var d := Stage(db, a, 6);
    var d7 := DeleteSenderMemos(d);
    var d8 := DeleteDestinationMemos(d7);
    assert Stage(db, a, 7) == d7;
    assert Stage(db, a, 8) == d8;
    assert Unreferenced(d7) == Unreferenced(d);
    assert Unreferenced(d8) == Unreferenced(d);
  }

  lemma {:induction false} MemosUntouched(db: Db, a: AccountId, n: nat)
    requires n <= 6
    ensures Stage(db, a, n).senderMemos == db.senderMemos && Stage(db, a, n).destinationMemos == db.destinationMemos
  {
    if n > 0 {
      MemosUntouched(db, a, n - 1);
      StatementFrame(Stage(db, a, n - 1), a, n);
      hide Statement;
    }
  }

  /**
   After the removal nothing refers to the account, no txo is left with neither owner nor log
   reference, no memo outlives its txo, and the rows of every other account, their logs, and the
   txos they own or their logs use are all still there.
   */
  lemma RemovalIsComplete(db: Db, a: AccountId)
    requires FkValid(db) && a in db.accounts
    ensures var d := RemoveAccount(db, a).db;
      && FkValid(d)
      && a !in d.accounts
      && (forall k :: k in d.subaddresses ==> d.subaddresses[k].account != a)
      && (forall l :: l in d.logs ==> d.logs[l].account != a)
      && (forall id :: id in d.txos ==> d.txos[id].account != Some(a))
      && (forall id :: id in d.txos ==> d.txos[id].account.Some? || Referenced(d, id))
      && AccountsKept(db, d, a) && LogsKept(db, d, a) && TxosKept(db, d, a) && MemosKept(db, d)
  {
    hide Stage, FkValid, AccountsKept, LogsKept, TxosKept, MemosKept;
    EveryStatementKeepsForeignKeys(db, a, 9);
    StageKeepsLogs(db, a, 9);
    StageKeepsAccounts(db, a, 9);
    StageKeepsTxos(db, a, 9);
    StageKeepsMemos(db, a);
  }
}
