/**
 An account that is imported again after a removal left spent outputs of it behind: compared with an
 import into a table where those rows are unspent, only their spent blocks differ.
 */
module Reimport {
  import opened Schema
  import opened Ledger
  import opened Scan
  import opened Addresses
  import opened Refinement
  import opened Coins
  import opened Runs
  import opened Resync
  import Integrity
  import Removal

  /** The output is one of `a`'s that a removal left without an owner, already spent. */
  ghost predicate Left(txos: map<TxoId, Txo>, l: Chain, a: AccountId, id: TxoId) {
    && id in txos && txos[id].account.None? && txos[id].spent.Some?
    && exists i, o :: Has(l, i, o) && o.viewer == a && o.id == id
  }

  ghost function Cleared(txos: map<TxoId, Txo>, l: Chain, a: AccountId): map<TxoId, Txo> {
    map id | id in txos :: if Left(txos, l, a, id) then txos[id].(spent := None) else txos[id]
  }

  /** Row by row, `t` is `u` with the spent blocks that the left-over rows of `was` held. */
  ghost predicate SameButLeft(t: map<TxoId, Txo>, u: map<TxoId, Txo>, was: map<TxoId, Txo>, l: Chain, a: AccountId) {
    && t.Keys == u.Keys
    && forall id :: id in u ==> t[id] == if Left(was, l, a, id) then u[id].(spent := was[id].spent) else u[id]
  }

  ghost predicate Twins(db: Db, e: Db, was: map<TxoId, Txo>, l: Chain, a: AccountId) {
    && db.accounts == e.accounts && db.subaddresses == e.subaddresses
    && was.Keys <= e.txos.Keys && SameButLeft(db.txos, e.txos, was, l, a)
  }

  // ----- One chunk -----

  lemma ReceivedTwins(db: Db, e: Db, was: map<TxoId, Txo>, l: Chain, a: AccountId)
    requires Twins(db, e, was, l, a) && a in db.accounts && db.accounts[a].nextBlock < |l| && UniqueOutputs(l)
    ensures SameButLeft(ChunkReceived(db, l, a), ChunkReceived(e, l, a), was, l, a)
  {
    var r, u := ChunkReceived(db, l, a), ChunkReceived(e, l, a);
    forall id
      ensures id in r <==> id in u
      ensures id in u ==> r[id] == if Left(was, l, a, id) then u[id].(spent := was[id].spent) else u[id]
    {
      if b, o :| InChunk(db, l, a, b) && Has(l, b, o) && o.viewer == a && o.id == id {
        ChunkReceivedAt(db, l, a, b, o);
        ChunkReceivedAt(e, l, a, b, o);
      } else {
        ChunkReceivedElsewhere(db, l, a, id);
        ChunkReceivedElsewhere(e, l, a, id);
      }
    }
  }

  lemma WatchedInBoth(r: map<TxoId, Txo>, u: map<TxoId, Txo>, was: map<TxoId, Txo>, l: Chain, a: AccountId)
    requires SameButLeft(r, u, was, l, a) && UniqueImages(u, a)
    ensures UniqueImages(r, a)
  {
    assert forall k, id :: Holds(r, a, k, id) ==> Holds(u, a, k, id);
  }

  lemma ScannedRow(db: Db, e: Db, was: map<TxoId, Txo>, l: Chain, a: AccountId, id: TxoId)
    requires Twins(db, e, was, l, a) && a in db.accounts && db.accounts[a].nextBlock < |l| && Valid(l)
    requires UniqueImages(ChunkReceived(e, l, a), a)
    ensures var t, u := ScanChunk(db, l, a).txos, ScanChunk(e, l, a).txos;
      && (id in t <==> id in u)
      && (id in u ==> t[id] == if Left(was, l, a, id) then u[id].(spent := was[id].spent) else u[id])
  {
    var r, q := ChunkReceived(db, l, a), ChunkReceived(e, l, a);
    ReceivedTwins(db, e, was, l, a);
    WatchedInBoth(r, q, was, l, a);
    ScanRowSound(db, l, a, id);
    ScanRowSound(e, l, a, id);
    if id in q && !Left(was, l, a, id) {
      var t, u := ScanChunk(db, l, a).txos[id], ScanChunk(e, l, a).txos[id];
      hide ScanChunk, ChunkReceived, UniqueImages, SameButLeft;
      if u != q[id] {
        ScanRowComplete(db, l, a, u.spent.value, id);
      } else if t != r[id] {
        ScanRowComplete(e, l, a, t.spent.value, id);
      }
    }
  }

  lemma ScannedTwins(db: Db, e: Db, was: map<TxoId, Txo>, l: Chain, a: AccountId)
    requires Twins(db, e, was, l, a) && a in db.accounts && db.accounts[a].nextBlock < |l| && Valid(l)
    requires UniqueImages(ChunkReceived(e, l, a), a)
    ensures SameButLeft(ScanChunk(db, l, a).txos, ScanChunk(e, l, a).txos, was, l, a)
  {
    hide ScanChunk, ChunkReceived, UniqueImages, Valid, Twins;
    var t, u := ScanChunk(db, l, a).txos, ScanChunk(e, l, a).txos;
    forall id
      ensures id in t <==> id in u
      ensures id in u ==> t[id] == if Left(was, l, a, id) then u[id].(spent := was[id].spent) else u[id]
    {
      ScannedRow(db, e, was, l, a, id);
    }
  }

  lemma ChunkKeepsTwins(w: World, db: Db, was: map<TxoId, Txo>, a: AccountId)
    requires Inv(w, a) && Twins(db, w.db, was, w.ledger, a) && w.db.accounts[a].nextBlock < |w.ledger|
    ensures Twins(ScanChunk(db, w.ledger, a), ScanChunk(w.db, w.ledger, a), was, w.ledger, a)
  {
    ReceivedUniqueImages(w, a);
    ScannedTwins(db, w.db, was, w.ledger, a);
    Integrity.ScanKeepsKeys(w.db, w.ledger, a);
    SameCursor(db, w.db, w.ledger, a);
    hide Inv, ScanChunk, SameButLeft, UniqueImages, ChunkReceived;
  }

  lemma SameCursor(db: Db, e: Db, l: Chain, a: AccountId)
    requires db.accounts == e.accounts && db.subaddresses == e.subaddresses
    ensures ScanChunk(db, l, a).accounts == ScanChunk(e, l, a).accounts
    ensures ScanChunk(db, l, a).subaddresses == ScanChunk(e, l, a).subaddresses
  {
    hide ChunkReceived, ChunkSpent, MarkSpent, Finalise, FailExpired;
  }

  // ----- To the tip -----

  lemma {:induction false} TwinsToTip(w: World, db: Db, was: map<TxoId, Txo>, a: AccountId) returns (v: World)
    requires Inv(w, a) && w.repaired == {} && Twins(db, w.db, was, w.ledger, a) && w.db.accounts[a].nextBlock == w.seen
    ensures Inv(v, a) && v.repaired == {} && v.ledger == w.ledger && v.db.subaddresses == w.db.subaddresses
    ensures v.db.accounts[a].firstBlock == w.db.accounts[a].firstBlock && (w.seen <= |w.ledger| ==> v.seen == |w.ledger|)
    ensures Twins(ScanToTip(db, w.ledger, a), v.db, was, w.ledger, a)
    decreases if w.seen < |w.ledger| then |w.ledger| - w.seen else 0
  {
    if w.seen >= |w.ledger| {
      v := w;
    } else {
      ChunkKeepsTwins(w, db, was, a);
      SyncSelf(w, a);
      SyncKeepsAccount(w, a);
      SyncReaches(w, a);
      hide Inv, ScanChunk, Twins;
      v := TwinsToTip(SyncStep(w, a, a), ScanChunk(db, w.ledger, a), was, a);
    }
  }

  lemma SyncReaches(w: World, a: AccountId)
    requires a in w.db.accounts && w.db.accounts[a].nextBlock == w.seen < |w.ledger|
    ensures var v := SyncStep(w, a, a);
      && v.db == ScanChunk(w.db, w.ledger, a) && v.repaired == w.repaired
      && a in v.db.accounts && w.seen < v.seen == v.db.accounts[a].nextBlock <= |w.ledger|
  {
    hide ChunkReceived, ChunkSpent, MarkSpent, Finalise, FailExpired;
  }

  // ----- Creating the account -----

  /** Owned rows are outputs their owners can view, and spent rows without an owner are outputs too. */
  ghost predicate Accounted(db: Db, l: Chain) {
    && HeldByViewers(db, l)
    && (forall id :: id in db.txos && db.txos[id].account.None? && db.txos[id].spent.Some? ==> exists i, o :: Has(l, i, o) && o.id == id)
  }

  lemma {:induction false} InsertIgnoresTxos(db: Db, e: Db, a: AccountId, indices: seq<u64>)
    requires e == db.(txos := e.txos)
    ensures var r, q := InsertSubaddresses(db, a, indices), InsertSubaddresses(e, a, indices);
      q.error == r.error && q.db == r.db.(txos := e.txos) && r.db.txos == db.txos
  {
    if indices != [] {
      InsertIgnoresTxos(db, e, a, indices[..|indices| - 1]);
    }
  }

  lemma ClearedIsOpen(db: Db, l: Chain, a: AccountId)
    requires Removal.FkValid(db) && LinksOk(db, a) && a !in db.accounts && Accounted(db, l)
    ensures var e := db.(txos := Cleared(db.txos, l, a)); Removal.FkValid(e) && Open(e, l, a)
    ensures SameButLeft(db.txos, Cleared(db.txos, l, a), db.txos, l, a)
  {
    var e := db.(txos := Cleared(db.txos, l, a));
    assert forall x :: x in db.logs ==> db.logs[x].account != a;
  }

  /**
   At the tip, every output of the re-imported account has the row the ledger dictates, except that one left
   behind still holds the spent block it was left with, whether or not its address has been assigned again.
   */
  lemma ReimportedRows(l: Chain, db: Db, a: AccountId, first: nat, next: Option<u64>, fog: bool)
    requires Valid(l) && TableOk(db.subaddresses) && Removal.FkValid(db) && LinksOk(db, a) && Accounted(db, l)
    requires a !in db.accounts && CreateAccount(db, a, first, next, false, fog).error.None?
    ensures var d := ScanToTip(CreateAccount(db, a, first, next, false, fog).db, l, a);
      && (forall i, o :: first <= i < |l| && Has(l, i, o) && o.viewer == a ==>
            var row := LedgerRow(l, d.subaddresses, a, |l|, i, o);
            o.id in d.txos && d.txos[o.id] == if Left(db.txos, l, a, o.id) then row.(spent := db.txos[o.id].spent) else row)
      && (forall id :: id in d.txos && d.txos[id].account == Some(a) ==>
            exists i, o :: first <= i < |l| && Has(l, i, o) && o.viewer == a && o.id == id)
  {
    var e := db.(txos := Cleared(db.txos, l, a));
    ClearedIsOpen(db, l, a);
    var n: u64 := if next.Some? then next.value else DEFAULT_NEXT_SUBADDRESS_INDEX;
    var row := Account(first, first, false, fog, false);
    InsertIgnoresTxos(db.(accounts := db.accounts[a := row]), e.(accounts := e.accounts[a := row]), a, InitialIndices(false, fog, n));
    FreshAccount(l, e, a, first, next, fog);
    CreateTouchesOne(e, a, first, next, false, fog);
    var db1, e1 := CreateAccount(db, a, first, next, false, fog).db, CreateAccount(e, a, first, next, false, fog).db;
    assert Twins(db1, e1, db.txos, l, a);
    hide CreateAccount, Removal.FkValid, LinksOk, FinalOk, Open;
    var v := TwinsToTip(World(e1, l, first, {}), db1, db.txos, a);
    hide Inv, ScanToTip;
    RowsAtTip(v, ScanToTip(db1, l, a), db.txos, a, first);
  }

  lemma RowsAtTip(v: World, d: Db, was: map<TxoId, Txo>, a: AccountId, first: nat)
    requires Inv(v, a) && v.repaired == {} && Twins(d, v.db, was, v.ledger, a) && v.db.accounts[a].firstBlock == first
    requires first <= |v.ledger| ==> v.seen == |v.ledger|
    ensures forall i, o :: first <= i < |v.ledger| && Has(v.ledger, i, o) && o.viewer == a ==>
      var row := LedgerRow(v.ledger, d.subaddresses, a, |v.ledger|, i, o);
      o.id in d.txos && d.txos[o.id] == if Left(was, v.ledger, a, o.id) then row.(spent := was[o.id].spent) else row
    ensures forall id :: id in d.txos && d.txos[id].account == Some(a) ==>
      exists i, o :: first <= i < |v.ledger| && Has(v.ledger, i, o) && o.viewer == a && o.id == id
  {
    forall i, o | first <= i < |v.ledger| && Has(v.ledger, i, o) && o.viewer == a
      ensures o.id in v.db.txos && v.db.txos[o.id] == LedgerRow(v.ledger, d.subaddresses, a, |v.ledger|, i, o)
    {
      assert Mine(v, a, i, o);
      RowUpToRepair(v, a, i, o);
    }
    forall id | id in d.txos && d.txos[id].account == Some(a)
      ensures exists i, o :: first <= i < |v.ledger| && Has(v.ledger, i, o) && o.viewer == a && o.id == id
    {
      assert Origin(v, a, a, id);
    }
  }
}
