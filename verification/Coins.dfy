/**
 Coins and the logs that spend them: every link joins a log to txos of its own account. Where pending
 logs land together, a finalised log leaves no input unspent, so a live coin is free or in flight.
 */
module Coins {
  import opened Schema
  import opened Ledger
  import opened Scan
  import opened Logging
  import opened Addresses
  import opened Refinement
  import opened Steps
  import Integrity
  import Queries
  import Removal

  /** Every link joins a log to an existing txo of the log's account; for `a`, one with a subaddress. */
  ghost predicate LinksOk(db: Db, a: AccountId) {
    forall x :: x in db.inputs ==>
      && x.0 in db.logs && x.1 in db.txos && db.txos[x.1].account == Some(db.logs[x.0].account)
      && (db.logs[x.0].account == a ==> db.txos[x.1].subaddress.Some? && db.txos[x.1].keyImage.Some?)
  }

  /** The inputs of a finalised log of `a` are spent. */
  ghost predicate FinalOk(db: Db, a: AccountId) {
    forall x :: x in db.inputs && x.0 in db.logs && x.1 in db.txos && db.logs[x.0].account == a && db.logs[x.0].finalized.Some?
      ==> db.txos[x.1].spent.Some?
  }

  /** While a log is pending, its inputs land together or not at all: no other transaction takes one of them. */
  ghost predicate Together(db: Db, l: Chain, a: AccountId) {
    forall x, y, b :: x in db.inputs && y in db.inputs && x.0 == y.0 && x.0 in db.logs && db.logs[x.0].account == a
        && Pending(db.logs[x.0]) && x.1 in db.txos && y.1 in db.txos && db.txos[x.1].keyImage.Some? && db.txos[y.1].keyImage.Some?
        && Lands(l, b, db.txos[x.1].keyImage.value)
      ==> Lands(l, b, db.txos[y.1].keyImage.value)
  }

  ghost predicate CoinInv(w: World, a: AccountId) {
    Inv(w, a) && LinksOk(w.db, a) && FinalOk(w.db, a)
  }

  // ----- Scanning -----

  /** Scanning by `a` leaves the columns of its rows alone, except that it may mark them spent. */
  lemma ScanKeepsMyRow(w: World, a: AccountId, id: TxoId)
    requires Inv(w, a) && w.db.accounts[a].nextBlock < |w.ledger|
    requires id in w.db.txos && w.db.txos[id].account == Some(a)
    ensures var r := ChunkReceived(w.db, w.ledger, a); id in r && r[id] == w.db.txos[id]
    ensures var t := ScanChunk(w.db, w.ledger, a).txos;
      id in t && t[id] == w.db.txos[id].(spent := t[id].spent) && (w.db.txos[id].spent.Some? ==> t[id] == w.db.txos[id])
  {
    assert Origin(w, a, a, id);
    var i, o :| Has(w.ledger, i, o) && o.id == id && o.viewer == a && Mine(w, a, i, o);
    assert Mine(SyncStep(w, a, a), a, i, o);
    ReceivedMine(w, a, i, o);
    ScanRowSound(w.db, w.ledger, a, id);
  }

  /** No scan takes a txo away from its owner. */
  lemma ScanKeepsOwner(w: World, a: AccountId, c: AccountId, id: TxoId)
    requires Inv(w, a) && id in w.db.txos && w.db.txos[id].account.Some?
    ensures var t := ScanChunk(w.db, w.ledger, c).txos;
      && id in t && t[id].account == w.db.txos[id].account
      && (w.db.txos[id].account != Some(c) ==> t[id] == w.db.txos[id])
  {
    if c in w.db.accounts && w.db.accounts[c].nextBlock < |w.ledger| {
      Integrity.ScanKeepsKeys(w.db, w.ledger, c);
      assert Origin(w, a, w.db.txos[id].account.value, id);
      ScanRowSound(w.db, w.ledger, c, id);
      if w.db.txos[id].account == Some(c) {
        Integrity.ScanOwners(w.db, w.ledger, c, id);
      } else {
        ChunkReceivedElsewhere(w.db, w.ledger, c, id);
      }
    }
  }

  lemma ScanKeepsLinks(w: World, a: AccountId, c: AccountId)
    requires Inv(w, a) && LinksOk(w.db, a)
    ensures LinksOk(ScanChunk(w.db, w.ledger, c), a)
  {
    var d := ScanChunk(w.db, w.ledger, c);
    Integrity.ScanKeepsKeys(w.db, w.ledger, c);
    forall x | x in d.inputs
      ensures x.0 in d.logs && x.1 in d.txos && d.txos[x.1].account == Some(d.logs[x.0].account)
      ensures d.logs[x.0].account == a ==> d.txos[x.1].subaddress.Some? && d.txos[x.1].keyImage.Some?
    {
      ScanKeepsOwner(w, a, c, x.1);
      if c in w.db.accounts && w.db.accounts[c].nextBlock < |w.ledger| {
        ScanLog(w.db, w.ledger, c, x.0);
        if c == a && w.db.logs[x.0].account == a {
          ScanKeepsMyRow(w, a, x.1);
        }
      }
    }
  }

  /** A log of `a` is finalised only by a scan of `a`, and then every input is marked spent with it. */
  lemma ScanKeepsFinal(w: World, a: AccountId, c: AccountId)
    requires CoinInv(w, a) && Together(w.db, w.ledger, a)
    ensures FinalOk(ScanChunk(w.db, w.ledger, c), a)
  {
    if c in w.db.accounts && w.db.accounts[c].nextBlock < |w.ledger| {
      var d := ScanChunk(w.db, w.ledger, c);
      Integrity.ScanKeepsKeys(w.db, w.ledger, c);
      forall x | x in d.inputs && x.0 in d.logs && x.1 in d.txos && d.logs[x.0].account == a && d.logs[x.0].finalized.Some?
        ensures d.txos[x.1].spent.Some?
      {
        ScanLog(w.db, w.ledger, c, x.0);
        ScanKeepsOwner(w, a, c, x.1);
        if w.db.logs[x.0].finalized.Some? {
          if c == a {
            ScanKeepsMyRow(w, a, x.1);
          }
        } else {
          ScanSpendsInputs(w, a, c, x);
        }
      }
    }
  }

  lemma ScanSpendsInputs(w: World, a: AccountId, c: AccountId, x: (LogId, TxoId))
    requires CoinInv(w, a) && Together(w.db, w.ledger, a)
    requires c in w.db.accounts && w.db.accounts[c].nextBlock < |w.ledger|
    requires x in w.db.inputs && w.db.logs[x.0].account == a && Pending(w.db.logs[x.0])
    requires FirstHit(w.db.inputs, ChunkSpent(w.db, w.ledger, c), x.0).Some?
    ensures x.1 in ScanChunk(w.db, w.ledger, c).txos && ScanChunk(w.db, w.ledger, c).txos[x.1].spent.Some?
  {
    var spent := ChunkSpent(w.db, w.ledger, c);
    ChunkSpentOrdered(w.db, w.ledger, c);
    FirstHitExact(w.db.inputs, spent, x.0);
    var h := FirstHit(w.db.inputs, spent, x.0).value;
    var id :| (h, id) in spent && (x.0, id) in w.db.inputs;
    ChunkSpentSound(w.db, w.ledger, c, h, id);
    assert w.db.txos[id].account == Some(a);
    ReceivedOwnerKept(w, a, c, id);
    ScanKeepsMyRow(w, a, id);
    ScanKeepsMyRow(w, a, x.1);
    assert Lands(w.ledger, h, w.db.txos[x.1].keyImage.value);
    if w.db.txos[x.1].spent.None? {
      ReceivedUniqueImages(w, a);
      ScanRowComplete(w.db, w.ledger, a, h, x.1);
    }
  }

  lemma ReceivedOwnerKept(w: World, a: AccountId, c: AccountId, id: TxoId)
    requires Inv(w, a) && c in w.db.accounts && w.db.accounts[c].nextBlock < |w.ledger|
    requires id in w.db.txos && w.db.txos[id].account == Some(a)
    requires id in ChunkReceived(w.db, w.ledger, c) && ChunkReceived(w.db, w.ledger, c)[id].account == Some(c)
    ensures c == a
  {
    if c != a {
      assert Origin(w, a, a, id);
      ChunkReceivedElsewhere(w.db, w.ledger, c, id);
    }
  }

  lemma ChunkSpentOrdered(db: Db, l: Chain, a: AccountId)
    requires a in db.accounts && db.accounts[a].nextBlock <= |l|
    ensures InBlockOrder(ChunkSpent(db, l, a))
  {
    var s := db.accounts[a].nextBlock;
    ChunkImagesOrdered(l, s, ChunkEnd(l, s));
    MatchesOrdered(ChunkImages(l, s, ChunkEnd(l, s)), UnspentIndex(ChunkReceived(db, l, a), a));
  }

  // ----- The other steps -----

  lemma RecordKeepsCoins(db: Db, db': Db, a: AccountId, c: AccountId, w: World)
    requires w.db == db && Inv(w, a) && LinksOk(db, a) && Recorded(db, db', a, c)
    ensures LinksOk(db', a) && (FinalOk(db, a) ==> FinalOk(db', a))
  {
    forall x | x in db'.inputs
      ensures x.0 in db'.logs && x.1 in db'.txos && db'.txos[x.1].account == Some(db'.logs[x.0].account)
      ensures db'.logs[x.0].account == a ==> db'.txos[x.1].subaddress.Some? && db'.txos[x.1].keyImage.Some?
      ensures FinalOk(db, a) && db'.logs[x.0].account == a && db'.logs[x.0].finalized.Some? ==> db'.txos[x.1].spent.Some?
    {
      if x !in db.inputs {
        var log :| log !in db.logs && log in db'.logs && NewLinks(db, db'.inputs, log, c);
        if c == a {
          assert Origin(w, a, a, x.1);
        }
      }
    }
  }

  lemma AssignKeepsCoins(w: World, a: AccountId, c: AccountId)
    requires Inv(w, a) && LinksOk(w.db, a)
    ensures var d := CreateNext(w.db, w.ledger, c).db; LinksOk(d, a) && (FinalOk(w.db, a) ==> FinalOk(d, a))
  {
  }

  lemma RemoveKeepsCoins(w: World, a: AccountId, c: AccountId)
    requires LinksOk(w.db, a) && Removal.FkValid(w.db) && c != a
    ensures var d := Removal.RemoveAccount(w.db, c).db; LinksOk(d, a) && (FinalOk(w.db, a) ==> FinalOk(d, a))
  {
    if c in w.db.accounts {
      Removal.RemovalIsComplete(w.db, c);
      hide Removal.RemoveAccount;
      var d := Removal.RemoveAccount(w.db, c).db;
      forall x | x in d.inputs
        ensures x in w.db.inputs && x.0 in d.logs && d.logs[x.0] == w.db.logs[x.0] && x.1 in d.txos && d.txos[x.1] == w.db.txos[x.1]
      {
        assert x.0 in d.logs;
      }
    }
  }

  // ----- Live coins -----

  /** Where pending logs land together, no live coin of the account is overtaken: it is free or in flight. */
  lemma LiveCoinsAreListed(w: World, a: AccountId, id: TxoId)
    requires CoinInv(w, a) && id in w.db.txos && w.db.txos[id].account == Some(a) && Queries.Live(w.db.txos[id])
    ensures !Queries.Overtaken(w.db, id)
    ensures Queries.Free(w.db, id) || Queries.InFlight(w.db, id)
  {
    if x :| x in w.db.inputs && x.1 == id {
      assert w.db.logs[x.0].finalized.None?;
    }
    Queries.NeitherFreeNorInFlight(w.db, id);
  }

  /** The rows of the account have the shape that scans give to an account with spend keys. */
  lemma RowsAreFull(w: World, a: AccountId, scope: Queries.Scope, token: u64)
    requires Inv(w, a) && (scope.account == Some(a) || (scope.address.Some? && scope.address.value.account == a))
    ensures Queries.FullRows(w.db, scope, token)
  {
    forall id | Queries.Listed(w.db, id, scope, token) ensures Queries.FullRow(w.db.txos[id]) {
      assert Origin(w, a, a, id);
    }
  }

  /**
   Conservation: in every reachable state the unspent, pending, spent, unverified and orphaned
   lists partition the txos of the account, and so add up to their value, if and only if no live
   coin has both a pending log and a failed or unsubmitted one, and none has only succeeded ones.
   */
  lemma BalancesConserve(w: World, a: AccountId, scope: Queries.Scope, token: u64)
    requires Inv(w, a) && (scope.account == Some(a) || (scope.address.Some? && scope.address.value.account == a))
    ensures Queries.Partition(w.db, scope, token) <==>
      (forall id :: Queries.Listed(w.db, id, scope, token) && Queries.Live(w.db.txos[id])
         ==> !(Queries.Free(w.db, id) && Queries.InFlight(w.db, id)) && !Queries.Overtaken(w.db, id))
    ensures Queries.Partition(w.db, scope, token) ==>
      Queries.Total(w.db.txos, Queries.Unspent(w.db, scope, token)) + Queries.Total(w.db.txos, Queries.Pending(w.db, scope, token))
      + Queries.Total(w.db.txos, Queries.Spent(w.db, scope, token)) + Queries.Total(w.db.txos, Queries.Unverified(w.db, scope, token))
      + Queries.Total(w.db.txos, Queries.Orphaned(w.db, scope, token)) == Queries.Total(w.db.txos, Queries.AllListed(w.db, scope, token))
  {
    RowsAreFull(w, a, scope, token);
    Queries.PartitionIffClassified(w.db, scope, token);
    hide Queries.Partition, Queries.Free, Queries.InFlight, Queries.Overtaken;
    forall id
      ensures !Queries.Free(w.db, id) && !Queries.InFlight(w.db, id) <==> Queries.Overtaken(w.db, id)
    {
      Queries.NeitherFreeNorInFlight(w.db, id);
    }
    if Queries.Partition(w.db, scope, token) {
      Queries.PartitionConserves(w.db, scope, token);
    }
  }

  /** An overtaken coin that is still live is in none of the five lists, and is not offered for spending either. */
  lemma OvertakenCoinIsLost(w: World, a: AccountId, id: TxoId, scope: Queries.Scope, token: u64)
    requires Inv(w, a) && Queries.Listed(w.db, id, scope, token) && w.db.txos[id].account == Some(a)
    requires Queries.Live(w.db.txos[id]) && Queries.Overtaken(w.db, id)
    ensures id !in Queries.Unspent(w.db, scope, token) && id !in Queries.Pending(w.db, scope, token)
    ensures id !in Queries.Spent(w.db, scope, token) && id !in Queries.Unverified(w.db, scope, token)
    ensures id !in Queries.Orphaned(w.db, scope, token) && id !in Queries.Spendable(w.db, scope, token)
  {
    Queries.NeitherFreeNorInFlight(w.db, id);
    hide Queries.Overtaken, Queries.Free, Queries.InFlight;
    assert Origin(w, a, a, id);
  }

  /**
   How a coin gets lost: two pending logs share the input `x`, and the first one's transaction spends it.
   The chunk finalises the second log too, whose other input `y` has not landed, so `y` is overtaken.
   */
  lemma SharedInputLosesACoin(w: World, a: AccountId, log: LogId, x: TxoId, y: TxoId, b: nat)
    requires Inv(w, a) && LinksOk(w.db, a) && w.db.accounts[a].nextBlock < |w.ledger|
    requires log in w.db.logs && w.db.logs[log].account == a && Pending(w.db.logs[log])
    requires (log, x) in w.db.inputs && (log, y) in w.db.inputs
    requires w.db.txos[x].spent.None? && w.db.txos[y].spent.None?
    requires InChunk(w.db, w.ledger, a, b) && Lands(w.ledger, b, w.db.txos[x].keyImage.value)
    requires forall c :: !Lands(w.ledger, c, w.db.txos[y].keyImage.value)
    requires forall z :: z in w.db.inputs && z.1 == y ==> z.0 == log
    ensures var v := SyncStep(w, a, a);
      && log in v.db.logs && Status(v.db.logs[log]) == Succeeded
      && x in v.db.txos && v.db.txos[x].spent == Some(b)
      && y in v.db.txos && v.db.txos[y] == w.db.txos[y] && Queries.Live(v.db.txos[y]) && Queries.Overtaken(v.db, y)
  {
    var spent := ChunkSpent(w.db, w.ledger, a);
    ScanKeepsMyRow(w, a, x);
    ScanKeepsMyRow(w, a, y);
    ReceivedUniqueImages(w, a);
    ChunkSpentComplete(w.db, w.ledger, a, b, x);
    ScanRowComplete(w.db, w.ledger, a, b, x);
    ChunkSpentOrdered(w.db, w.ledger, a);
    FirstHitExact(w.db.inputs, spent, log);
    ScanLog(w.db, w.ledger, a, log);
    ScanRowSound(w.db, w.ledger, a, y);
  }

  /** In every reachable state the spendable query is the disjoint union of the unspent and unverified ones. */
  lemma QueriesAgreeWhenReachable(w: World, a: AccountId, scope: Queries.Scope, token: u64)
    requires Inv(w, a) && (scope.account == Some(a) || (scope.address.Some? && scope.address.value.account == a))
    ensures Queries.Spendable(w.db, scope, token) == Queries.Unspent(w.db, scope, token) + Queries.Unverified(w.db, scope, token)
    ensures Queries.Unspent(w.db, scope, token) !! Queries.Unverified(w.db, scope, token)
  {
    RowsAreFull(w, a, scope, token);
    Queries.QueriesAgree(w.db, scope, token);
  }
}
