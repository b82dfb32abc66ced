/**
 The wallet database as an object whose tables are updated in place. Every operation is
 proved against its function on values in the other modules.
 */
module WalletDb {
  import opened Schema
  import opened Ledger
  import Scan
  import Logging
  import Addresses
  import Removal
  import Queries
  import CoinSelection
  import Balances
  import WalletStatus

  // ----- Loops stop at the first error -----

  lemma {:induction false} SignInputsStops(db: Db, log: LogId, ins: seq<Logging.InputTxo>, i: nat)
    requires i <= |ins| && Logging.SignInputs(db, log, ins[..i]).error.Some?
    ensures Logging.SignInputs(db, log, ins) == Logging.SignInputs(db, log, ins[..i])
    decreases |ins| - i
  {
    if i == |ins| {
      assert ins[..i] == ins;
    } else {
      assert ins[..i + 1][..i] == ins[..i];
      SignInputsStops(db, log, ins, i + 1);
    }
  }

  lemma {:induction false} LinkInputsStops(db: Db, log: LogId, ins: seq<TxOut>, i: nat)
    requires i <= |ins| && Logging.LinkInputs(db, log, ins[..i]).error.Some?
    ensures Logging.LinkInputs(db, log, ins) == Logging.LinkInputs(db, log, ins[..i])
    decreases |ins| - i
  {
    if i == |ins| {
      assert ins[..i] == ins;
    } else {
      assert ins[..i + 1][..i] == ins[..i];
      LinkInputsStops(db, log, ins, i + 1);
    }
  }

  lemma {:induction false} AddOutputsStops(db: Db, log: LogId, outs: seq<Logging.OutputTxo>, isChange: bool, i: nat)
    requires i <= |outs| && Logging.AddOutputs(db, log, outs[..i], isChange).error.Some?
    ensures Logging.AddOutputs(db, log, outs, isChange) == Logging.AddOutputs(db, log, outs[..i], isChange)
    decreases |outs| - i
  {
    if i == |outs| {
      assert outs[..i] == outs;
    } else {
      assert outs[..i + 1][..i] == outs[..i];
      AddOutputsStops(db, log, outs, isChange, i + 1);
    }
  }

  lemma {:induction false} InsertSubaddressesStops(db: Db, a: AccountId, indices: seq<u64>, i: nat)
    requires i <= |indices| && Addresses.InsertSubaddresses(db, a, indices[..i]).error.Some?
    ensures Addresses.InsertSubaddresses(db, a, indices) == Addresses.InsertSubaddresses(db, a, indices[..i])
    decreases |indices| - i
  {
    if i == |indices| {
      assert indices[..i] == indices;
    } else {
      assert indices[..i + 1][..i] == indices[..i];
      InsertSubaddressesStops(db, a, indices, i + 1);
    }
  }

  /** Where no two watched rows share a key image, there is only one index from key image to row. */
  lemma IndexIsUnique(txos: map<TxoId, Txo>, a: AccountId, m: map<KeyImage, TxoId>)
    requires Scan.UniqueImages(txos, a)
    requires Scan.IsIndex(txos, a, m)
    ensures m == Scan.UnspentIndex(txos, a)
  {
    var index := Scan.UnspentIndex(txos, a);
    assert forall k :: k in m <==> k in index;
  }

  /** Two watched rows with one key image would make the match depend on the order the query returns; reachable tables have none. */
  ghost predicate Unambiguous(db: Db, l: Chain, a: AccountId) {
    a in db.accounts && db.accounts[a].nextBlock < |l| ==> Scan.UniqueImages(Scan.ChunkReceived(db, l, a), a)
  }

  /** No account meets an ambiguous match when its turn comes. */
  ghost predicate UnambiguousRound(db: Db, l: Chain, order: seq<AccountId>) {
    forall i :: 0 <= i < |order| ==> Unambiguous(Scan.SyncRound(db, l, order[..i]), l, order[i])
  }

  lemma OrderIsDistinct(order: seq<AccountId>, ids: set<AccountId>)
    requires WalletStatus.Lists(order, ids)
    ensures forall i, j :: 0 <= i < j < |order| ==> order[i] != order[j]
    ensures forall i :: 0 <= i < |order| ==> order[i] in ids
  {
    forall i, j | 0 <= i < j < |order|
      ensures order[i] != order[j]
    {
      assert order == order[..i] + [order[i]] + order[i + 1..];
      assert order[i + 1..][j - i - 1] == order[j];
      assert multiset(order)[order[i]] <= 1;
    }
    forall i | 0 <= i < |order|
      ensures order[i] in ids
    {
      assert order[i] in multiset(order);
    }
  }

  lemma EveryAccountIsListed(order: seq<AccountId>, ids: set<AccountId>)
    requires WalletStatus.Lists(order, ids)
    ensures WalletStatus.SetOf(order) == ids
  {
    forall a
      ensures a in WalletStatus.SetOf(order) <==> a in ids
    {
      assert a in order <==> a in multiset(order);
    }
  }

  /** The first `i` accounts have had their turn, and the others are as listed. */
  ghost predicate TurnsTaken(accounts: map<AccountId, Account>, listed: map<AccountId, Account>, l: Chain, order: seq<AccountId>, i: nat) {
    && accounts.Keys == listed.Keys && i <= |order| && (forall j :: 0 <= j < |order| ==> order[j] in listed)
    && (forall j :: i <= j < |order| ==> accounts[order[j]] == listed[order[j]])
    && (forall j :: 0 <= j < i ==> accounts[order[j]] == Scan.SyncedAccount(listed, l, order[j]))
  }

  lemma NoTurnTaken(db: Db, l: Chain, order: seq<AccountId>)
    requires WalletStatus.Lists(order, db.accounts.Keys)
    ensures TurnsTaken(db.accounts, db.accounts, l, order, 0) && Scan.SyncRound(db, l, order[..0]) == db
  {
    OrderIsDistinct(order, db.accounts.Keys);
  }

  lemma NextTurn(accounts: map<AccountId, Account>, listed: map<AccountId, Account>, l: Chain, order: seq<AccountId>, i: nat)
    requires WalletStatus.Lists(order, listed.Keys) && i < |order| && TurnsTaken(accounts, listed, l, order, i)
    ensures order[i] in accounts && accounts[order[i]] == listed[order[i]]
    ensures TurnsTaken(accounts[order[i] := Scan.SyncedAccount(accounts, l, order[i])], listed, l, order, i + 1)
  {
    OrderIsDistinct(order, listed.Keys);
    Scan.TurnsAreApart(accounts, listed, l, order[i]);
  }

  lemma EveryTurnIsTaken(accounts: map<AccountId, Account>, listed: map<AccountId, Account>, l: Chain, order: seq<AccountId>)
    requires WalletStatus.Lists(order, listed.Keys) && TurnsTaken(accounts, listed, l, order, |order|)
    ensures accounts.Keys == listed.Keys && forall a :: a in accounts ==> accounts[a] == Scan.SyncedAccount(listed, l, a)
  {
    forall a | a in accounts
      ensures accounts[a] == Scan.SyncedAccount(listed, l, a)
    {
      assert a in multiset(order);
      assert a in order;
    }
  }

  lemma NextInRound(db: Db, l: Chain, order: seq<AccountId>, i: nat)
    requires i < |order|
    ensures Scan.SyncRound(db, l, order[..i + 1]) == Scan.SyncOne(Scan.SyncRound(db, l, order[..i]), l, order[i])
    ensures UnambiguousRound(db, l, order) ==> Unambiguous(Scan.SyncRound(db, l, order[..i]), l, order[i])
  {
    assert order[..i + 1][..i] == order[..i];
  }

  class WalletDb {
    var accounts: map<AccountId, Account>
    var subaddresses: map<SpendKey, Subaddress>
    var txos: map<TxoId, Txo>
    var logs: map<LogId, Log>
    var inputs: set<(LogId, TxoId)>
    var outputs: map<(LogId, TxoId), OutputLink>
    var senderMemos: set<TxoId>
    var destinationMemos: set<TxoId>

    function Contents(): Db
      reads this
    {
      Db(accounts, subaddresses, txos, logs, inputs, outputs, senderMemos, destinationMemos)
    }

    constructor ()
      ensures Contents() == Db(map[], map[], map[], map[], {}, map[], {}, {}) && Removal.FkValid(Contents())
    {
      accounts, subaddresses, txos, logs := map[], map[], map[], map[];
      inputs, outputs, senderMemos, destinationMemos := {}, map[], {}, {};
    }

    /** Undo a failed transaction. */
    method Rollback(db: Db)
      modifies this
      ensures Contents() == db
    {
      accounts, subaddresses, txos, logs := db.accounts, db.subaddresses, db.txos, db.logs;
      inputs, outputs, senderMemos, destinationMemos := db.inputs, db.outputs, db.senderMemos, db.destinationMemos;
    }

    // ----- Scanning -----

    /** Load the outputs and key images of the next chunk. */
    method LoadChunk(l: Chain, start: nat)
      returns (txOuts: seq<(nat, TxOut)>, keyImages: seq<(nat, KeyImage)>, end: Option<nat>)
      ensures start >= |l| <==> end.None?
      ensures end.Some? ==>
        var e := if start + 1_000 < |l| then start + 1_000 else |l|;
        end.value + 1 == e && txOuts == Scan.ChunkOutputs(l, start, e) && keyImages == Scan.ChunkImages(l, start, e)
    {
      txOuts, keyImages, end := [], [], None;
      var block := start;
      while block < start + Scan.BLOCKS_CHUNK_SIZE
        invariant start <= block <= start + Scan.BLOCKS_CHUNK_SIZE
        invariant block == start || block <= |l|
        invariant end.None? <==> block == start
        invariant end.Some? ==> end.value + 1 == block
        invariant block <= |l| ==> txOuts == Scan.ChunkOutputs(l, start, block) && keyImages == Scan.ChunkImages(l, start, block)
      {
        if block >= |l| {
          break;
        }
        end := Some(block);
        txOuts := txOuts + Scan.Tag(block, l[block].outputs);
        keyImages := keyImages + Scan.Tag(block, l[block].keyImages);
        block := block + 1;
      }
    }

    /** Keep the outputs whose amount the view key decodes. */
    method DecodeAmounts(txOuts: seq<(nat, TxOut)>, a: AccountId) returns (received: seq<(nat, TxOut)>)
      ensures received == Scan.Decoded(txOuts, a)
    {
      received := [];
      for i := 0 to |txOuts|
        invariant received == Scan.Decoded(txOuts[..i], a)
      {
        assert txOuts[..i + 1][..i] == txOuts[..i];
        if txOuts[i].1.viewer == a {
          received := received + [txOuts[i]];
        }
      }
      assert txOuts[..|txOuts|] == txOuts;
    }

    /** Insert the row of a received output, or update the one a recorded transaction left. */
    method CreateReceived(o: TxOut, sub: Option<i64>, image: Option<KeyImage>, block: nat, a: AccountId)
      modifies this`txos
      ensures txos == old(txos)[o.id := Txo(Some(a), AsI64(o.amount.value), AsI64(o.amount.token), o.targetKey, o.publicKey,
                                            sub, image, Some(block), Scan.SpentColumn(old(txos), o.id))]
    {
      if o.id in txos {
        txos := txos[o.id := txos[o.id].(account := Some(a), value := AsI64(o.amount.value), token := AsI64(o.amount.token),
                                         targetKey := o.targetKey, publicKey := o.publicKey,
                                         subaddress := sub, keyImage := image, received := Some(block))];
      } else {
        txos := txos[o.id := Txo(Some(a), AsI64(o.amount.value), AsI64(o.amount.token), o.targetKey, o.publicKey,
                                 sub, image, Some(block), None)];
      }
    }

    method ReceiveAll(received: seq<(nat, TxOut)>, a: AccountId, full: bool)
      modifies this`txos
      ensures txos == Scan.ReceiveAll(old(txos), subaddresses, a, full, received)
    {
      for i := 0 to |received|
        invariant txos == Scan.ReceiveAll(old(txos), subaddresses, a, full, received[..i])
      {
        var (block, o) := received[i];
        assert received[..i + 1][..i] == received[..i];
        var sub := Scan.FindSubaddress(subaddresses, o.targetKey);
        CreateReceived(o, sub, Scan.DecodeKeyImage(o, a, full, sub), block, a);
      }
      assert received[..|received|] == received;
    }

    /** Index the watched rows by key image. */
    method ListUnspentOrPendingKeyImages(a: AccountId) returns (index: map<KeyImage, TxoId>)
      ensures Scan.IsIndex(txos, a, index)
      ensures forall k :: k in index ==>
        && index[k] in txos && txos[index[k]].account == Some(a) && txos[index[k]].keyImage == Some(k)
        && txos[index[k]].subaddress.Some? && txos[index[k]].spent.None?
      ensures forall id ::
        id in txos && txos[id].account == Some(a) && txos[id].keyImage.Some? && txos[id].subaddress.Some? && txos[id].spent.None? ==>
          txos[id].keyImage.value in index
    {
      index := map[];
      var rest := txos.Keys;
      while rest != {}
        invariant rest <= txos.Keys
        invariant forall k :: k in index ==> Scan.Holds(txos, a, k, index[k])
        invariant forall k, id :: Scan.Holds(txos, a, k, id) && id !in rest ==> k in index
        decreases |rest|
      {
        var id :| id in rest;
        if Scan.Watched(txos[id], a) {
          index := index[txos[id].keyImage.value := id];
        }
        rest := rest - {id};
      }
      forall id | id in txos && Scan.Watched(txos[id], a)
        ensures txos[id].keyImage.value in index
      {
        assert Scan.Holds(txos, a, txos[id].keyImage.value, id);
      }
    }

    method MatchKeyImages(keyImages: seq<(nat, KeyImage)>, index: map<KeyImage, TxoId>) returns (spent: seq<(nat, TxoId)>)
      ensures spent == Scan.Matches(keyImages, index)
    {
      spent := [];
      for i := 0 to |keyImages|
        invariant spent == Scan.Matches(keyImages[..i], index)
      {
        assert keyImages[..i + 1][..i] == keyImages[..i];
        if keyImages[i].1 in index {
          spent := spent + [(keyImages[i].0, index[keyImages[i].1])];
        }
      }
      assert keyImages[..|keyImages|] == keyImages;
    }

    method UpdateSpentBlockIndex(id: TxoId, block: nat)
      modifies this`txos
      ensures txos == Scan.MarkSpentOne(old(txos), block, id)
    {
      if id in txos {
        txos := txos[id := txos[id].(spent := Some(block))];
      }
    }

    /** Finalise the pending logs that spend a txo. */
    method UpdatePendingAssociatedWithTxoToSucceeded(id: TxoId, block: nat)
      modifies this`logs
      ensures logs == Scan.FinaliseOne(old(logs), inputs, block, id)
    {
      var ids := set l | l in logs && (l, id) in inputs && Scan.Pending(logs[l]);
      logs := map l | l in logs :: if l in ids then logs[l].(finalized := Some(block)) else logs[l];
    }

    /** Fail the logs, of any account, whose tombstone has passed. */
    method UpdatePendingExceedingTombstoneBlockIndexToFailed(next: nat)
      modifies this`logs
      ensures logs == Scan.FailExpired(old(logs), next)
    {
      logs := map l | l in logs :: if Scan.Expired(logs[l], next) then logs[l].(failed := true) else logs[l];
    }

    method MarkSpent(spent: seq<(nat, TxoId)>)
      modifies this`txos, this`logs
      ensures txos == Scan.MarkSpent(old(txos), spent) && logs == Scan.Finalise(old(logs), inputs, spent)
    {
      for i := 0 to |spent|
        invariant txos == Scan.MarkSpent(old(txos), spent[..i])
        invariant logs == Scan.Finalise(old(logs), inputs, spent[..i])
      {
        var (block, id) := spent[i];
        assert spent[..i + 1][..i] == spent[..i];
        UpdateSpentBlockIndex(id, block);
        UpdatePendingAssociatedWithTxoToSucceeded(id, block);
      }
      assert spent[..|spent|] == spent;
    }

    /** Scan the next chunk of blocks for an account. */
    method SyncAccountNextChunk(l: Chain, a: AccountId) returns (found: nat, error: Option<DbError>)
      modifies this
      ensures error == if a in old(accounts) then None else Some(AccountNotFound)
      ensures a in old(accounts) && old(accounts)[a].nextBlock < |l| ==>
        exists index :: Scan.IsIndex(Scan.ChunkReceived(old(Contents()), l, a), a, index)
          && Contents() == Scan.ScanWith(old(Contents()), l, a, index)
      ensures old(Unambiguous(Contents(), l, a)) ==> Contents() == Scan.ScanChunk(old(Contents()), l, a)
      ensures Contents() == old(Contents()).(txos := txos, logs := logs, accounts := accounts)
      ensures accounts == Scan.AdvanceCursor(old(accounts), l, a)
      ensures found == if a in old(accounts) && old(accounts)[a].nextBlock < |l|
                       then |Scan.Decoded(Scan.ChunkOutputs(l, old(accounts)[a].nextBlock, Scan.ChunkEnd(l, old(accounts)[a].nextBlock)), a)|
                       else 0
    {
      hide Scan.ReceiveAll, Scan.Decoded, Scan.ChunkOutputs, Scan.ChunkImages, Scan.UniqueImages, Scan.IsIndex, Scan.UnspentIndex,
        Scan.Matches, Scan.MarkSpent, Scan.Finalise, Scan.FailExpired;
      if a !in accounts {
        return 0, Some(AccountNotFound);
      }
      var account := accounts[a];
      var txOuts, keyImages, end := LoadChunk(l, account.nextBlock);
      if end.None? {
        return 0, None;
      }
      var received := DecodeAmounts(txOuts, a);
      ReceiveAll(received, a, !account.viewOnly);
      var index := ListUnspentOrPendingKeyImages(a);
      if Scan.UniqueImages(txos, a) {
        IndexIsUnique(txos, a, index);
      }
      var spent := MatchKeyImages(keyImages, index);
      MarkSpent(spent);
      UpdatePendingExceedingTombstoneBlockIndexToFailed(end.value + 1);
      accounts := accounts[a := account.(nextBlock := end.value + 1)];
      assert Contents() == Scan.ScanWith(old(Contents()), l, a, index);
      return |received|, None;
    }

    /** Scan one chunk for an account that is behind; an account at the tip is no longer resyncing. */
    method SyncTurn(l: Chain, a: AccountId, listed: Account)
      requires |l| > 0 && a in accounts && accounts[a] == listed
      modifies this
      ensures Unambiguous(old(Contents()), l, a) ==> Contents() == Scan.SyncOne(old(Contents()), l, a)
      ensures accounts == old(accounts)[a := Scan.SyncedAccount(old(accounts), l, a)]
    {
      hide Scan.ScanChunk, Scan.ChunkEnd, Scan.Decoded, Scan.ChunkOutputs, Unambiguous;
      if listed.nextBlock > |l| - 1 {
        if listed.resyncing {
          accounts := accounts[a := accounts[a].(resyncing := false)];
        }
        assert accounts == old(accounts)[a := listed.(resyncing := false)];
      } else {
        var _, _ := SyncAccountNextChunk(l, a);
      }
    }

    /** Give every account, in the order the table returns them, its turn. */
    method SyncAllAccounts(l: Chain, order: seq<AccountId>)
      requires WalletStatus.Lists(order, accounts.Keys)
      modifies this
      ensures UnambiguousRound(old(Contents()), l, order) ==> Contents() == Scan.SyncRound(old(Contents()), l, order)
      ensures accounts.Keys == old(accounts).Keys
      ensures forall a :: a in accounts ==>
        accounts[a] == if |l| == 0 then old(accounts)[a] else Scan.SyncedAccount(old(accounts), l, a)
      ensures forall a :: a in accounts ==>
        var row := old(accounts)[a];
        accounts[a] == if row.nextBlock + 1_000 < |l| then row.(nextBlock := row.nextBlock + 1_000)
                       else if row.nextBlock < |l| then row.(nextBlock := |l|)
                       else if |l| > 0 then row.(resyncing := false) else row
    {
      hide Scan.SyncOne, Scan.SyncRound, Scan.SyncedAccount, Unambiguous, UnambiguousRound, TurnsTaken, WalletStatus.Lists;
      ghost var db := Contents();
      if |l| == 0 {
        Scan.EmptyRound(db, order);
        return;
      }
      var listed := accounts;
      NoTurnTaken(db, l, order);
      for i := 0 to |order|
        invariant TurnsTaken(accounts, listed, l, order, i)
        invariant UnambiguousRound(db, l, order) ==> Contents() == Scan.SyncRound(db, l, order[..i])
      {
        NextTurn(accounts, listed, l, order, i);
        NextInRound(db, l, order, i);
        SyncTurn(l, order[i], listed[order[i]]);
      }
      assert order[..|order|] == order;
      EveryTurnIsTaken(accounts, listed, l, order);
      forall a | a in listed
        ensures Scan.SyncedAccount(listed, l, a) ==
          if listed[a].nextBlock + 1_000 < |l| then listed[a].(nextBlock := listed[a].nextBlock + 1_000)
          else if listed[a].nextBlock < |l| then listed[a].(nextBlock := |l|)
          else listed[a].(resyncing := false)
      {
        Scan.TurnExactly(listed, l, a);
      }
    }

    /** Start scanning an account again from its first block. */
    method ResyncAccount(a: AccountId) returns (error: Option<DbError>)
      modifies this`accounts
      ensures error == if a in old(accounts) then None else Some(AccountNotFound)
      ensures accounts == if a in old(accounts)
                          then old(accounts)[a := old(accounts)[a].(nextBlock := old(accounts)[a].firstBlock)] else old(accounts)
    {
      if a !in accounts {
        return Some(AccountNotFound);
      }
      accounts := accounts[a := accounts[a].(nextBlock := accounts[a].firstBlock)];
      return None;
    }

    // ----- Recording transactions -----

    method UpdateKeyImage(id: TxoId, image: KeyImage, spent: Option<nat>)
      modifies this`txos
      ensures Contents() == Logging.UpdateKeyImage(old(Contents()), id, image, spent)
    {
      if id in txos {
        txos := txos[id := txos[id].(keyImage := Some(image), spent := spent)];
      }
    }

    method InsertInput(log: LogId, id: TxoId) returns (error: Option<DbError>)
      modifies this`inputs
      ensures Outcome(Contents(), error) == Logging.InsertInput(old(Contents()), log, id)
    {
      if (log, id) in inputs || id !in txos || log !in logs {
        return Some(ConstraintViolation);
      }
      inputs := inputs + {(log, id)};
      return None;
    }

    /** Insert the row of a new output and link it to its log. */
    method CreateNewOutput(o: Logging.OutputTxo, isChange: bool, log: LogId) returns (error: Option<DbError>)
      modifies this`txos, this`outputs
      ensures Outcome(Contents(), error) == Logging.CreateNewOutput(old(Contents()), o, isChange, log)
    {
      if o.txOut.id in txos {
        return Some(ConstraintViolation);
      }
      txos := txos[o.txOut.id := Logging.NewOutputRow(o)];
      if (log, o.txOut.id) in outputs || log !in logs {
        return Some(ConstraintViolation);
      }
      outputs := outputs[(log, o.txOut.id) := OutputLink(o.recipient, isChange)];
      return None;
    }

    method LinkInputs(log: LogId, ins: seq<TxOut>) returns (error: Option<DbError>)
      modifies this`inputs
      ensures Outcome(Contents(), error) == Logging.LinkInputs(old(Contents()), log, ins)
    {
      for i := 0 to |ins|
        invariant Outcome(Contents(), None) == Logging.LinkInputs(old(Contents()), log, ins[..i])
      {
        assert ins[..i + 1][..i] == ins[..i];
        error := InsertInput(log, ins[i].id);
        if error.Some? {
          LinkInputsStops(old(Contents()), log, ins, i + 1);
          return;
        }
      }
      assert ins[..|ins|] == ins;
      return None;
    }

    method SignInputs(log: LogId, ins: seq<Logging.InputTxo>) returns (error: Option<DbError>)
      modifies this`txos, this`inputs
      ensures Outcome(Contents(), error) == Logging.SignInputs(old(Contents()), log, ins)
    {
      for i := 0 to |ins|
        invariant Outcome(Contents(), None) == Logging.SignInputs(old(Contents()), log, ins[..i])
      {
        assert ins[..i + 1][..i] == ins[..i];
        UpdateKeyImage(ins[i].txOut.id, ins[i].keyImage, None);
        error := InsertInput(log, ins[i].txOut.id);
        if error.Some? {
          SignInputsStops(old(Contents()), log, ins, i + 1);
          return;
        }
      }
      assert ins[..|ins|] == ins;
      return None;
    }

    method UpdateImages(ins: seq<Logging.InputTxo>)
      modifies this`txos
      ensures Contents() == Logging.UpdateImages(old(Contents()), ins)
    {
      for i := 0 to |ins|
        invariant Contents() == Logging.UpdateImages(old(Contents()), ins[..i])
      {
        assert ins[..i + 1][..i] == ins[..i];
        UpdateKeyImage(ins[i].txOut.id, ins[i].keyImage, None);
      }
      assert ins[..|ins|] == ins;
    }

    method AddOutputs(log: LogId, outs: seq<Logging.OutputTxo>, isChange: bool) returns (error: Option<DbError>)
      modifies this`txos, this`outputs
      ensures Outcome(Contents(), error) == Logging.AddOutputs(old(Contents()), log, outs, isChange)
    {
      for i := 0 to |outs|
        invariant Outcome(Contents(), None) == Logging.AddOutputs(old(Contents()), log, outs[..i], isChange)
      {
        assert outs[..i + 1][..i] == outs[..i];
        error := CreateNewOutput(outs[i], isChange, log);
        if error.Some? {
          AddOutputsStops(old(Contents()), log, outs, isChange, i + 1);
          return;
        }
      }
      assert outs[..|outs|] == outs;
      return None;
    }

    method AddAllOutputs(log: LogId, payload: seq<Logging.OutputTxo>, change: seq<Logging.OutputTxo>) returns (error: Option<DbError>)
      modifies this`txos, this`outputs
      ensures Outcome(Contents(), error) == Logging.AddAllOutputs(old(Contents()), log, payload, change)
    {
      error := AddOutputs(log, payload, false);
      if error.None? {
        error := AddOutputs(log, change, true);
      }
    }

    method LogBuilt(p: Logging.UnsignedProposal, a: AccountId) returns (error: Option<DbError>)
      modifies this
      ensures Outcome(Contents(), error) == Logging.LogBuilt(old(Contents()), p, a)
    {
      hide Logging.LinkInputs, Logging.AddAllOutputs, Logging.TransactionId;
      var id := Logging.TransactionId(p.payload);
      if a !in accounts {
        return Some(AccountNotFound);
      }
      if id.None? {
        return Some(InvalidArgument);
      }
      if id.value in logs {
        return Some(ConstraintViolation);
      }
      logs := logs[id.value := Log(a, AsI64(p.fee), AsI64(p.feeToken), None, None, None, "", [], false)];
      error := LinkInputs(id.value, p.inputs);
      if error.None? {
        error := AddAllOutputs(id.value, p.payload, p.change);
      }
    }

    method NewLog(p: Logging.Proposal, submitted: Option<nat>, comment: string, a: AccountId, id: LogId) returns (error: Option<DbError>)
      modifies this
      ensures Outcome(Contents(), error) == Logging.NewLog(old(Contents()), p, submitted, comment, a, id)
    {
      hide Logging.SignInputs, Logging.AddAllOutputs;
      logs := logs[id := Log(a, AsI64(p.fee), AsI64(p.feeToken), submitted, Some(AsI64(p.tombstone)), None, comment, p.tx, false)];
      error := SignInputs(id, p.inputs);
      if error.None? {
        error := AddAllOutputs(id, p.payload, p.change);
      }
    }

    method LogSigned(p: Logging.Proposal, comment: string, a: AccountId) returns (error: Option<DbError>)
      modifies this
      ensures Outcome(Contents(), error) == Logging.LogSigned(old(Contents()), p, comment, a)
    {
      hide Logging.NewLog, Logging.TransactionId;
      var id := Logging.TransactionId(p.payload);
      if a !in accounts {
        return Some(AccountNotFound);
      }
      if id.None? {
        return Some(InvalidArgument);
      }
      if id.value in logs {
        UpdateImages(p.inputs);
        Logging.UpdateImagesFrame(old(Contents()), p.inputs);
        logs := logs[id.value := logs[id.value].(comment := comment)];
        logs := logs[id.value := logs[id.value].(tx := p.tx, tombstone := Some(AsI64(p.tombstone)))];
        return None;
      }
      error := NewLog(p, None, comment, a, id.value);
    }

    method LogSubmitted(p: Logging.Proposal, block: nat, comment: string, a: AccountId) returns (error: Option<DbError>)
      modifies this
      ensures Outcome(Contents(), error) == Logging.LogSubmitted(old(Contents()), p, block, comment, a)
    {
      hide Logging.NewLog, Logging.TransactionId;
      var id := Logging.TransactionId(p.payload);
      if a !in accounts {
        return Some(AccountNotFound);
      }
      if id.None? {
        return Some(InvalidArgument);
      }
      if id.value in logs {
        logs := logs[id.value := logs[id.value].(submitted := Some(block))];
        logs := logs[id.value := logs[id.value].(comment := comment)];
        return None;
      }
      error := NewLog(p, Some(block), comment, a, id.value);
    }

    // ----- Accounts and addresses -----

    method InsertSubaddress(a: AccountId, index: u64) returns (error: Option<DbError>)
      modifies this`subaddresses
      ensures Outcome(Contents(), error) == Addresses.InsertSubaddress(old(Contents()), a, index)
    {
      var key, row := SpendKey(a, index), Subaddress(a, AsI64(index));
      if a !in accounts || key in subaddresses || row in subaddresses.Values {
        return Some(ConstraintViolation);
      }
      subaddresses := subaddresses[key := row];
      return None;
    }

    /** Create an account with its first subaddresses. */
    method CreateAccount(a: AccountId, first: nat, next: Option<u64>, viewOnly: bool, fog: bool) returns (error: Option<DbError>)
      modifies this
      ensures Outcome(Contents(), error) == Addresses.CreateAccount(old(Contents()), a, first, next, viewOnly, fog)
      ensures error == Some(AccountAlreadyExists) <==> a in old(accounts)
      ensures error.None? || error == Some(AccountAlreadyExists) || error == Some(ConstraintViolation)
    {
      hide Addresses.InitialIndices, Addresses.InsertSubaddress;
      if a in accounts {
        return Some(AccountAlreadyExists);
      }
      accounts := accounts[a := Account(first, first, viewOnly, fog, false)];
      ghost var db := Contents();
      var indices := Addresses.InitialIndices(viewOnly, fog, if next.Some? then next.value else Addresses.DEFAULT_NEXT_SUBADDRESS_INDEX);
      for i := 0 to |indices|
        invariant Outcome(Contents(), None) == Addresses.InsertSubaddresses(db, a, indices[..i])
      {
        assert indices[..i + 1][..i] == indices[..i];
        error := InsertSubaddress(a, indices[i]);
        if error.Some? {
          InsertSubaddressesStops(db, a, indices, i + 1);
          Addresses.InsertErrors(db, a, indices[..i + 1]);
          return;
        }
      }
      assert indices[..|indices|] == indices;
      return None;
    }

    /** The highest index of an account, as stored, plus one. */
    method NextSubaddressIndex(a: AccountId) returns (next: Option<u64>)
      ensures next == Addresses.NextIndex(Contents(), a)
    {
      ghost var indices := Addresses.Indices(subaddresses, a);
      var highest: Option<i64> := None;
      var rest := subaddresses.Keys;
      while rest != {}
        invariant rest <= subaddresses.Keys
        invariant highest.Some? ==> highest.value in indices
        invariant forall k :: k in subaddresses && k !in rest && subaddresses[k].account == a ==>
                    highest.Some? && subaddresses[k].index <= highest.value
        decreases |rest|
      {
        var k :| k in rest;
        var row := subaddresses[k];
        if row.account == a && (highest.None? || highest.value < row.index) {
          highest := Some(row.index);
        }
        rest := rest - {k};
      }
      if highest.None? {
        assert indices == {};
        return None;
      }
      assert Addresses.IsHighest(highest.value, indices);
      return if highest.value == -1 then None else Some(AsU64(highest.value) + 1);
    }

    method ContainsKeyImage(l: Chain, k: KeyImage) returns (found: bool)
      ensures found <==> Addresses.InLedger(l, k)
    {
      for i := 0 to |l|
        invariant forall b :: b < i ==> !Lands(l, b, k)
      {
        if k in l[i].keyImages {
          assert Lands(l, i, k);
          return true;
        }
      }
      return false;
    }

    /** Give an explained orphan its subaddress and key image; one already spent is marked so. */
    method RepairOrphan(l: Chain, a: AccountId, n: u64, full: bool, id: TxoId) returns (error: Option<DbError>)
      requires id in txos
      modifies this`txos
      ensures error == if full && Addresses.InLedger(l, Addresses.ImageFor(old(txos)[id], a, n)) && Addresses.Missing(l, old(txos)[id].publicKey)
                       then Some(TxOutNotFound) else None
      ensures error.None? ==> txos == old(txos)[id := Addresses.RepairedRow(old(txos)[id], l, a, n, full)]
    {
      if full {
        var image := KeyImage(txos[id].publicKey, a, n);
        var spent := ContainsKeyImage(l, image);
        if spent {
          var block := Addresses.FirstBlockWith(l, txos[id].publicKey, |l|);
          if block.None? {
            return Some(TxOutNotFound);
          }
          txos := txos[id := txos[id].(spent := block)];
        }
        txos := txos[id := txos[id].(subaddress := Some(AsI64(n)), keyImage := Some(image))];
      } else {
        txos := txos[id := txos[id].(subaddress := Some(AsI64(n)))];
      }
      return None;
    }

    /** Repair every orphan that the new subaddress explains. */
    method RepairOrphans(l: Chain, a: AccountId, n: u64, full: bool) returns (error: Option<DbError>)
      modifies this`txos
      ensures error == if Addresses.Repairable(old(txos), l, a, n, full) then None else Some(TxOutNotFound)
      ensures error.None? ==> txos == Addresses.Repair(old(txos), l, a, n, full)
    {
      hide Addresses.InLedger, Addresses.Missing, Addresses.RepairedRow;
      ghost var was := txos;
      var rest := set id | id in txos && Addresses.Orphaned(txos[id], a);
      while rest != {}
        invariant rest <= was.Keys && txos.Keys == was.Keys
        invariant forall id :: id in rest ==> Addresses.Orphaned(was[id], a)
        invariant forall id :: id in was && (id in rest || !Addresses.Explained(was[id], a, n)) ==> txos[id] == was[id]
        invariant forall id :: id in was && id !in rest && Addresses.Explained(was[id], a, n) ==>
                    && (full && Addresses.InLedger(l, Addresses.ImageFor(was[id], a, n)) ==> !Addresses.Missing(l, was[id].publicKey))
                    && txos[id] == Addresses.RepairedRow(was[id], l, a, n, full)
        decreases |rest|
      {
        var id :| id in rest;
        if txos[id].targetKey == SpendKey(a, n) {
          assert Addresses.Explained(was[id], a, n);
          error := RepairOrphan(l, a, n, full, id);
          if error.Some? {
            return;
          }
        }
        rest := rest - {id};
      }
      return None;
    }

    /** Assign the next subaddress of an account and repair the orphans sent to it, all or nothing. */
    method CreateNextForAccount(l: Chain, a: AccountId) returns (index: Option<u64>, error: Option<DbError>)
      modifies this
      ensures Outcome(Contents(), error) == Addresses.CreateNext(old(Contents()), l, a)
      ensures error.None? ==> index == Addresses.NextIndex(old(Contents()), a)
    {
      hide Addresses.Repairable, Addresses.Repair, Addresses.NextIndex;
      if a !in accounts {
        return None, Some(AccountNotFound);
      }
      if accounts[a].fogEnabled {
        return None, Some(SubaddressesNotSupportedForFog);
      }
      index := NextSubaddressIndex(a);
      if index.None? {
        return None, Some(InvalidArgument);
      }
      var before := Contents();
      error := InsertSubaddress(a, index.value);
      if error.Some? {
        return;
      }
      error := RepairOrphans(l, a, index.value, !accounts[a].viewOnly);
      if error.Some? {
        Rollback(before);
      }
    }

    // ----- Removal -----

    /** Remove an account, statement by statement. */
    method RemoveAccount(a: AccountId) returns (error: Option<DbError>)
      modifies this
      ensures Outcome(Contents(), error) == Removal.RemoveAccount(old(Contents()), a)
    {
      if a !in accounts {
        return Some(AccountNotFound);
      }
      Removal.StagesInOrder(Contents(), a);
      hide Removal.Stage, Removal.DeleteInputs, Removal.DeleteOutputs, Removal.DeleteLogs, Removal.DeleteSubaddresses, Removal.ScrubAccount,
        Removal.DeleteAccountRow, Removal.DeleteSenderMemos, Removal.DeleteDestinationMemos, Removal.DeleteTxos;
      DeleteAllLogsForAccount(a);
      DeleteOwner(a);
      DeleteUnreferenced();
      return None;
    }

    /** Delete the account's subaddresses, its name on txos, and its row. */
    method DeleteOwner(a: AccountId)
      modifies this`subaddresses, this`txos, this`accounts
      ensures Contents() == Removal.DeleteAccountRow(Removal.ScrubAccount(Removal.DeleteSubaddresses(old(Contents()), a), a), a)
    {
      subaddresses := map k | k in subaddresses && subaddresses[k].account != a :: subaddresses[k];
      txos := map id | id in txos :: if txos[id].account == Some(a) then txos[id].(account := None) else txos[id];
      accounts := accounts - {a};
    }

    /** Delete the txos that neither an account nor a log needs, after their memos. */
    method DeleteUnreferenced()
      modifies this`senderMemos, this`destinationMemos, this`txos
      ensures Contents() == Removal.DeleteTxos(Removal.DeleteDestinationMemos(Removal.DeleteSenderMemos(old(Contents()))))
    {
      hide Removal.Unreferenced;
      senderMemos := senderMemos - Removal.Unreferenced(Contents());
      destinationMemos := destinationMemos - Removal.Unreferenced(Contents());
      txos := txos - Removal.Unreferenced(Contents());
    }

    /** Delete the input links of the account's logs, row by row. */
    method DeleteInputs(a: AccountId)
      modifies this`inputs
      ensures Contents() == Removal.DeleteInputs(old(Contents()), a)
    {
      var doomed := set x | x in inputs && Removal.LogOf(Contents(), x.0, a);
      ghost var all := doomed;
      while doomed != {}
        invariant doomed <= all && inputs == old(inputs) - (all - doomed)
        decreases |doomed|
      {
        var x :| x in doomed;
        inputs := inputs - {x};
        doomed := doomed - {x};
      }
      assert inputs == old(inputs) - all;
      assert forall x :: x in inputs <==> x in old(inputs) && !Removal.LogOf(old(Contents()), x.0, a);
    }

    /** Delete the output links of the account's logs, row by row. */
    method DeleteOutputs(a: AccountId)
      modifies this`outputs
      ensures Contents() == Removal.DeleteOutputs(old(Contents()), a)
    {
      var doomed := set x | x in outputs && Removal.LogOf(Contents(), x.0, a);
      ghost var all := doomed;
      while doomed != {}
        invariant doomed <= all && outputs == old(outputs) - (all - doomed)
        decreases |doomed|
      {
        var x :| x in doomed;
        outputs := outputs - {x};
        doomed := doomed - {x};
      }
      assert outputs == old(outputs) - all;
      assert outputs == map x | x in old(outputs) && !Removal.LogOf(old(Contents()), x.0, a) :: old(outputs)[x];
    }

    /** Delete the links of the account's logs, and then the logs. */
    method DeleteAllLogsForAccount(a: AccountId)
      modifies this`inputs, this`outputs, this`logs
      ensures Contents() == Removal.DeleteLogs(Removal.DeleteOutputs(Removal.DeleteInputs(old(Contents()), a), a), a)
    {
      DeleteInputs(a);
      DeleteOutputs(a);
      logs := map l | l in logs && logs[l].account != a :: logs[l];
    }

    // ----- Balances and coin selection -----

    method SumQueryResult(ids: set<TxoId>) returns (total: nat)
      requires ids <= txos.Keys
      ensures total == Queries.Total(txos, ids)
    {
      total := 0;
      var rest := ids;
      while rest != {}
        invariant rest <= ids
        invariant total + Queries.Total(txos, rest) == Queries.Total(txos, ids)
        decreases |rest|
      {
        var id :| id in rest;
        Queries.TotalRemove(txos, rest, id);
        total := total + AsU64(txos[id].value);
        rest := rest - {id};
      }
    }

    /** The rows of a query as coins, in the arbitrary order the query returns them. */
    method LoadCoins(ids: set<TxoId>) returns (coins: seq<CoinSelection.Coin>)
      requires ids <= txos.Keys
      ensures CoinSelection.Distinct(coins) && CoinSelection.Coins(coins) == Balances.CoinsOf(txos, ids)
    {
      coins := [];
      var rest := ids;
      while rest != {}
        invariant rest <= ids
        invariant CoinSelection.Distinct(coins)
        invariant forall c :: c in coins <==> c in Balances.CoinsOf(txos, ids - rest)
        decreases |rest|
      {
        var id :| id in rest;
        assert forall c :: c in coins ==> c.id != id;
        coins := coins + [CoinSelection.Coin(id, txos[id].value)];
        rest := rest - {id};
      }
      assert ids - rest == ids;
    }

    /** The scope of an account and an optional address, which must be assigned. */
    method FindScope(account: Option<AccountId>, address: Option<SpendKey>) returns (scope: Option<Queries.Scope>)
      ensures scope == Balances.ScopeOf(Contents(), account, address)
    {
      if address.None? {
        return Some(Queries.Scope(account, None));
      }
      if address.value !in subaddresses {
        return None;
      }
      return Some(Queries.Scope(account, Some(subaddresses[address.value])));
    }

    /** The balance of an account or of one of its addresses; none for an address that was never assigned. */
    method GetBalanceInner(account: Option<AccountId>, address: Option<SpendKey>, token: u64, fee: u64)
      returns (balance: Option<Balances.Balance>)
      ensures balance.None? <==> address.Some? && address.value !in subaddresses
      ensures balance.Some? ==>
        var b, scope := balance.value, Queries.Scope(account, if address.None? then None else Some(subaddresses[address.value]));
        && b.unspent == Queries.Total(txos, Queries.Unspent(Contents(), scope, token))
        && b.spent == Queries.Total(txos, Queries.Spent(Contents(), scope, token))
        && b.pending == Queries.Total(txos, Queries.Pending(Contents(), scope, token))
        && b.unverified == Queries.Total(txos, Queries.Unverified(Contents(), scope, token))
        && b.orphaned == Queries.Total(txos, Queries.Orphaned(Contents(), scope, token))
        && CoinSelection.IsMaxSpendable(b.maxSpendable, OfferedCoins(scope, token, None), 16, fee)
        && Balances.IsBalance(b, Contents(), scope, token, fee)
    {
      hide Queries.Unspent, Queries.Spent, Queries.Pending, Queries.Unverified, Queries.Orphaned, Queries.Spendable;
      var scope := FindScope(account, address);
      if scope.None? {
        return None;
      }
      Balances.QueriesReturnRows(Contents(), scope.value, token);
      var unspent := SumQueryResult(Queries.Unspent(Contents(), scope.value, token));
      var spent := SumQueryResult(Queries.Spent(Contents(), scope.value, token));
      var pending := SumQueryResult(Queries.Pending(Contents(), scope.value, token));
      var unverified := SumQueryResult(Queries.Unverified(Contents(), scope.value, token));
      var orphaned := SumQueryResult(Queries.Orphaned(Contents(), scope.value, token));
      var coins := LoadCoins(Queries.Spendable(Contents(), scope.value, token));
      var spendable := CoinSelection.ListSpendable(coins, None, fee);
      Balances.NoLimit(coins);
      Balances.EverythingOffered(txos, Queries.Spendable(Contents(), scope.value, token));
      return Some(Balances.Balance(spendable.maxSpendable, unverified, unspent, pending, spent, orphaned));
    }

    /** Add up the balances of every account's tokens, and find how far the wallet is synced. */
    method GetWalletStatus(fees: map<u64, u64>, networkHeight: nat, order: seq<AccountId>) returns (status: WalletStatus.Status)
      requires WalletStatus.Lists(order, accounts.Keys)
      ensures forall token :: WalletStatus.Entry(status.balances, Contents(), fees, order, token)
      ensures forall token: u64 :: token in status.balances <==> WalletStatus.Held(Contents(), accounts.Keys, token)
      ensures WalletStatus.IsMinSynced(status.minSynced, Contents(), networkHeight)
      ensures status.accounts == order
    {
      hide WalletStatus.Held, WalletStatus.Entry, WalletStatus.IsMinOver, WalletStatus.Lists;
      var balances, minSynced, ids := map[], WalletStatus.Before(networkHeight), [];
      WalletStatus.Nothing(Contents(), fees, networkHeight);
      OrderIsDistinct(order, accounts.Keys);
      for i := 0 to |order|
        invariant ids == order[..i] && WalletStatus.SetOf(order[..i]) <= accounts.Keys
        invariant forall token :: WalletStatus.Entry(balances, Contents(), fees, order[..i], token)
        invariant WalletStatus.IsMinOver(minSynced, Contents(), networkHeight, WalletStatus.SetOf(order[..i]))
      {
        var a := order[i];
        assert order[..i + 1] == order[..i] + [a];
        WalletStatus.NextInLine(Contents(), order[..i], a, 0);
        balances := AddAccountBalances(a, balances, fees, order[..i]);
        WalletStatus.OneMoreAccount(minSynced, Contents(), networkHeight, WalletStatus.SetOf(order[..i]), a);
        minSynced := CoinSelection.Min(minSynced, WalletStatus.Before(accounts[a].nextBlock));
        ids := ids + [a];
      }
      assert order[..|order|] == order;
      EveryAccountIsListed(order, accounts.Keys);
      forall token: u64
        ensures token in balances <==> WalletStatus.Held(Contents(), accounts.Keys, token)
      {
        WalletStatus.EntryIfHeld(balances, Contents(), fees, order, token);
      }
      status := WalletStatus.Status(balances, minSynced, ids);
    }

    /** Merge the balances of one account's tokens. */
    method AddAccountBalances(a: AccountId, before: map<u64, Balances.Balance>, fees: map<u64, u64>, ghost done: seq<AccountId>)
      returns (balances: map<u64, Balances.Balance>)
      requires a !in done && forall token :: WalletStatus.Entry(before, Contents(), fees, done, token)
      ensures forall token :: WalletStatus.Entry(balances, Contents(), fees, done + [a], token)
    {
      hide WalletStatus.Entry, Balances.IsBalance, WalletStatus.TokenIds;
      balances := before;
      var tokens := WalletStatus.TokenIds(Contents(), a);
      var rest := tokens;
      while rest != {}
        invariant rest <= tokens
        invariant forall token :: token in tokens - rest ==> WalletStatus.Entry(balances, Contents(), fees, done + [a], token)
        invariant forall token :: token !in tokens - rest ==> WalletStatus.Entry(balances, Contents(), fees, done, token)
        decreases |rest|
      {
        var token :| token in rest;
        var balance := GetBalanceInner(Some(a), None, token, WalletStatus.FeeOf(fees, token));
        WalletStatus.MergeEntry(balances, Contents(), fees, done, token, a, balance.value);
        var merged := WalletStatus.Merge(balances, token, balance.value);
        forall other | other != token
          ensures other in tokens - rest ==> WalletStatus.Entry(merged, Contents(), fees, done + [a], other)
          ensures other !in tokens - rest ==> WalletStatus.Entry(merged, Contents(), fees, done, other)
        {
          WalletStatus.OtherEntry(balances, Contents(), fees, if other in tokens - rest then done + [a] else done, other, token, balance.value);
        }
        balances := merged;
        rest := rest - {token};
      }
      forall token | token !in tokens
        ensures WalletStatus.Entry(balances, Contents(), fees, done + [a], token)
      {
        WalletStatus.SkipEntry(balances, Contents(), fees, done, token, a);
      }
    }

    /** Choose the txos of an account to spend. */
    method SelectSpendableTxosForValue(a: AccountId, target: nat, maxValue: Option<u64>, address: Option<SpendKey>, token: u64, fee: u64)
      returns (selection: Option<CoinSelection.Selection>)
      ensures selection.None? <==> address.Some? && address.value !in subaddresses
      ensures selection.Some? && selection.value.Selected? ==>
        forall c :: c in selection.value.coins ==>
          && c.id in txos && c.value == txos[c.id].value
          && txos[c.id].account == Some(a) && AsU64(txos[c.id].token) == token && txos[c.id].spent.None?
          && (maxValue.Some? ==> AsU64(txos[c.id].value) <= maxValue.value)
          && (address.Some? ==> txos[c.id].account == Some(subaddresses[address.value].account)
                                && txos[c.id].subaddress == Some(subaddresses[address.value].index))
      ensures selection.Some? ==>
        var scope := Queries.Scope(Some(a), if address.None? then None else Some(subaddresses[address.value]));
        var offered := OfferedCoins(scope, token, maxValue);
        && (selection.value.Selected? <==> target > 0 && CoinSelection.Payable(offered, 16, target))
        && (selection.value == CoinSelection.Rejected(CoinSelection.NoSpendableTxos) <==> offered == {})
        && (selection.value == CoinSelection.Rejected(CoinSelection.InsufficientFundsFragmentedTxos) <==>
              offered != {} && !CoinSelection.Payable(offered, 16, target) && target > fee
              && CoinSelection.SumSet(offered) >= target + fee)
        && (selection.value == CoinSelection.Rejected(CoinSelection.InsufficientFundsUnderMaxSpendable) <==>
              offered != {} && !CoinSelection.Payable(offered, 16, target) && target > fee
              && CoinSelection.SumSet(offered) < target + fee)
        && (selection.value == CoinSelection.Rejected(CoinSelection.InsufficientFunds) <==>
              offered != {} && (target == 0 || (!CoinSelection.Payable(offered, 16, target) && target <= fee)))
        && (selection.value.Selected? ==>
              && CoinSelection.Coins(selection.value.coins) <= offered
              && CoinSelection.Distinct(selection.value.coins)
              && 1 <= |selection.value.coins| <= 16
              && CoinSelection.Sum(selection.value.coins) >= target
              && CoinSelection.Minimax(selection.value.coins, offered, 16, target))
    {
      hide Queries.Spendable, CoinSelection.Distinct, CoinSelection.TopSum, CoinSelection.Sum, CoinSelection.SumRange, CoinSelection.SumSet,
        CoinSelection.FirstWindow, CoinSelection.Minimax, CoinSelection.Eligible, CoinSelection.Coins, CoinSelection.Payable, Balances.CoinsOf;
      var scope := FindScope(Some(a), address);
      if scope.None? {
        return None;
      }
      Balances.QueriesReturnRows(Contents(), scope.value, token);
      var found := LoadCoins(Queries.Spendable(Contents(), scope.value, token));
      var r := CoinSelection.SelectSpendableTxosForValue(found, target, maxValue, fee);
      Balances.EligibleCoins(found, maxValue);
      CoinSelection.PayableIffTopSum(CoinSelection.Eligible(found, maxValue), CoinSelection.MAX_INPUTS, target);
      CoinSelection.SumOfCoins(CoinSelection.Eligible(found, maxValue));
      Balances.NothingToPayWith(target);
      if r.Selected? {
        Balances.CoinsHold(r.coins);
        forall c | c in r.coins
          ensures OfferedRow(scope.value, token, maxValue, c)
        {
          OfferedInScope(scope.value, token, maxValue, c);
        }
      }
      return Some(r);
    }

    /** The coins in scope that the caller's limit admits. */
    ghost function OfferedCoins(scope: Queries.Scope, token: u64, maxValue: Option<u64>): set<CoinSelection.Coin>
      reads this
    {
      Balances.QueriesReturnRows(Contents(), scope, token);
      Balances.Offered(txos, Queries.Spendable(Contents(), scope, token), maxValue)
    }

    /** The coin is of an unspent row of the account and address asked for, of the token and within the limit. */
    ghost predicate OfferedRow(scope: Queries.Scope, token: u64, maxValue: Option<u64>, c: CoinSelection.Coin)
      reads this
    {
      && c.id in txos && c.value == txos[c.id].value && AsU64(txos[c.id].token) == token && txos[c.id].spent.None?
      && (maxValue.Some? ==> AsU64(txos[c.id].value) <= maxValue.value)
      && (scope.account.Some? ==> txos[c.id].account == scope.account)
      && (scope.address.Some? ==> txos[c.id].account == Some(scope.address.value.account)
                                  && txos[c.id].subaddress == Some(scope.address.value.index))
    }

    lemma OfferedInScope(scope: Queries.Scope, token: u64, maxValue: Option<u64>, c: CoinSelection.Coin)
      requires c in OfferedCoins(scope, token, maxValue)
      ensures OfferedRow(scope, token, maxValue, c)
    {
      Queries.QueriesExactly(Contents(), scope, token, c.id);
    }
  }
}
