/** Resetting the cursor and scanning again: what it restores from any state, and what it leaves alone. */
module Resync {
  import opened Schema
  import opened Ledger
  import opened Scan
  import opened Refinement
  import opened Steps
  import Integrity
  import Queries

  /** Scan chunk after chunk until the ledger is exhausted. */
  ghost function ScanToTip(db: Db, l: Chain, a: AccountId): Db
    decreases if a in db.accounts && db.accounts[a].nextBlock < |l| then |l| - db.accounts[a].nextBlock else 0
  {
    if a !in db.accounts || db.accounts[a].nextBlock >= |l| then db else ScanToTip(ScanChunk(db, l, a), l, a)
  }

  /** The outputs of `a` in blocks `first` to `n - 1` have the rows their blocks dictate, apart from the spent column. */
  ghost predicate RestoredUpTo(db: Db, l: Chain, a: AccountId, first: nat, n: nat) {
    forall i, o :: first <= i < n && Has(l, i, o) && o.viewer == a ==>
      o.id in db.txos && db.txos[o.id] ==
        Txo(Some(a), AsI64(o.amount.value), AsI64(o.amount.token), o.targetKey, o.publicKey,
            if o.targetKey in db.subaddresses then Some(db.subaddresses[o.targetKey].index) else None,
            if o.targetKey in db.subaddresses then Some(KeyImage(o.publicKey, a, AsU64(db.subaddresses[o.targetKey].index))) else None,
            Some(i), db.txos[o.id].spent)
  }

  ghost predicate NeverUnspent(txos: map<TxoId, Txo>, txos': map<TxoId, Txo>) {
    forall id :: id in txos ==> id in txos' && (txos[id].spent.Some? ==> txos'[id].spent == txos[id].spent)
  }

  lemma ChunkRestores(db: Db, l: Chain, a: AccountId, first: nat)
    requires a in db.accounts && !db.accounts[a].viewOnly && first <= db.accounts[a].nextBlock < |l| && UniqueOutputs(l)
    requires RestoredUpTo(db, l, a, first, db.accounts[a].nextBlock)
    ensures var d := ScanChunk(db, l, a); RestoredUpTo(d, l, a, first, d.accounts[a].nextBlock)
  {
    var d := ScanChunk(db, l, a);
    forall i, o | first <= i < d.accounts[a].nextBlock && Has(l, i, o) && o.viewer == a
      ensures o.id in d.txos && d.txos[o.id] == ReceivedRow(d.subaddresses, a, true, i, o, d.txos[o.id].spent)
    {
      ScanRowSound(db, l, a, o.id);
      if InChunk(db, l, a, i) {
        ChunkReceivedAt(db, l, a, i, o);
      } else {
        ChunkReceivedElsewhere(db, l, a, o.id);
      }
    }
  }

  lemma ChunkNeverUnspends(db: Db, l: Chain, a: AccountId)
    ensures NeverUnspent(db.txos, ScanChunk(db, l, a).txos)
  {
    Integrity.ScanKeepsKeys(db, l, a);
    if a in db.accounts && db.accounts[a].nextBlock < |l| {
      var s := db.accounts[a].nextBlock;
      forall id | id in db.txos && db.txos[id].spent.Some? ensures ScanChunk(db, l, a).txos[id].spent == db.txos[id].spent {
        ScanRowSound(db, l, a, id);
        ReceiveAllSpent(db.txos, db.subaddresses, a, !db.accounts[a].viewOnly, Decoded(ChunkOutputs(l, s, ChunkEnd(l, s)), a), id);
      }
    }
  }

  lemma {:induction false} ScanRestores(db: Db, l: Chain, a: AccountId, first: nat)
    requires a in db.accounts && !db.accounts[a].viewOnly && first <= db.accounts[a].nextBlock && UniqueOutputs(l)
    requires RestoredUpTo(db, l, a, first, db.accounts[a].nextBlock)
    ensures var d := ScanToTip(db, l, a); RestoredUpTo(d, l, a, first, |l|) && NeverUnspent(db.txos, d.txos)
    decreases if db.accounts[a].nextBlock < |l| then |l| - db.accounts[a].nextBlock else 0
  {
    if db.accounts[a].nextBlock < |l| {
      ChunkRestores(db, l, a, first);
      ChunkNeverUnspends(db, l, a);
      ScanRestores(ScanChunk(db, l, a), l, a, first);
    }
  }

  /**
   From any database, with whatever the txo columns held before, resyncing restores the value,
   token, keys, subaddress, key image and received block of every output of the account, and
   never marks a spent txo unspent.
   */
  lemma ResyncRestores(db: Db, l: Chain, a: AccountId)
    requires a in db.accounts && !db.accounts[a].viewOnly && UniqueOutputs(l)
    ensures var d := ScanToTip(ResyncAccount(db, a), l, a);
      RestoredUpTo(d, l, a, db.accounts[a].firstBlock, |l|) && NeverUnspent(db.txos, d.txos)
  {
    ScanRestores(ResyncAccount(db, a), l, a, db.accounts[a].firstBlock);
  }

  /** Scanning blocks again leaves a correct table exactly as it was. */
  lemma RescanChangesNothing(w: World, a: AccountId)
    requires Inv(w, a) && w.db.accounts[a].nextBlock < |w.ledger| && ChunkEnd(w.ledger, w.db.accounts[a].nextBlock) <= w.seen
    ensures ScanChunk(w.db, w.ledger, a).txos == w.db.txos
  {
    var t := ScanChunk(w.db, w.ledger, a).txos;
    Integrity.ScanKeepsKeys(w.db, w.ledger, a);
    forall id | id in t ensures id in w.db.txos && t[id] == w.db.txos[id] {
      ScanRowSound(w.db, w.ledger, a, id);
      if ChunkReceived(w.db, w.ledger, a)[id].account == Some(a) {
        var i, o := ReceivedOrigin(w, a, id);
        ReceivedMine(w, a, i, o);
        RowColumns(w.db.subaddresses, a, i, o, w.db.txos[id].spent);
      } else {
        Integrity.ScanOwners(w.db, w.ledger, a, id);
      }
    }
  }

  /** A full account resynced from the tip ends with the table it started with. */
  lemma ResyncIsIdempotent(w: World, a: AccountId)
    requires Inv(w, a) && w.seen == |w.ledger|
    ensures ScanToTip(ResyncAccount(w.db, a), w.ledger, a).txos == w.db.txos
  {
    ResyncKeepsInv(w, a, a);
    RescanToTip(w.(db := ResyncAccount(w.db, a)), a);
  }

  lemma {:induction false} RescanToTip(w: World, a: AccountId)
    requires Inv(w, a) && w.seen == |w.ledger|
    ensures ScanToTip(w.db, w.ledger, a).txos == w.db.txos
    decreases |w.ledger| - w.db.accounts[a].nextBlock
  {
    if w.db.accounts[a].nextBlock < |w.ledger| {
      RescanChangesNothing(w, a);
      SyncSelf(w, a);
      assert SyncStep(w, a, a).seen == w.seen;
      RescanToTip(SyncStep(w, a, a), a);
    }
  }

  // ----- View-only accounts -----

  /** The rows of the chunk's outputs are the ones their blocks dictate, apart from spent blocks and key images. */
  ghost predicate ChunkRowsKnown(db: Db, l: Chain, a: AccountId)
    requires a in db.accounts && db.accounts[a].nextBlock <= |l|
  {
    forall b, o :: InChunk(db, l, a, b) && Has(l, b, o) && o.viewer == a ==>
      && o.id in db.txos
      && db.txos[o.id] == ReceivedRow(db.subaddresses, a, false, b, o, db.txos[o.id].spent).(keyImage := db.txos[o.id].keyImage)
  }

  /** No output of the chunk has a key image on record. */
  ghost predicate NoImages(db: Db, l: Chain, a: AccountId)
    requires a in db.accounts && db.accounts[a].nextBlock <= |l|
  {
    forall b, o :: InChunk(db, l, a, b) && Has(l, b, o) && o.viewer == a && o.id in db.txos ==> db.txos[o.id].keyImage.None?
  }

  /** No watched row's key image lands in the chunk. */
  ghost predicate NothingLands(db: Db, l: Chain, a: AccountId)
    requires a in db.accounts && db.accounts[a].nextBlock <= |l|
  {
    forall id, b :: id in db.txos && Watched(db.txos[id], a) && InChunk(db, l, a, b) ==> !Lands(l, b, db.txos[id].keyImage.value)
  }

  lemma ViewOnlyReceipts(db: Db, l: Chain, a: AccountId, id: TxoId)
    requires a in db.accounts && db.accounts[a].viewOnly && db.accounts[a].nextBlock < |l| && UniqueOutputs(l) && ChunkRowsKnown(db, l, a)
    ensures var r := ChunkReceived(db, l, a);
      && (id in r <==> id in db.txos)
      && (id in r && (exists b, o :: InChunk(db, l, a, b) && Has(l, b, o) && o.viewer == a && o.id == id) ==>
            r[id] == db.txos[id].(keyImage := None))
      && (id in r && !(exists b, o :: InChunk(db, l, a, b) && Has(l, b, o) && o.viewer == a && o.id == id) ==> r[id] == db.txos[id])
  {
    if b, o :| InChunk(db, l, a, b) && Has(l, b, o) && o.viewer == a && o.id == id {
      ChunkReceivedAt(db, l, a, b, o);
    } else {
      ChunkReceivedElsewhere(db, l, a, id);
    }
  }

  /** With no key image in the chunk, receiving it again changes no row. */
  lemma ReceiptsChangeNothing(db: Db, l: Chain, a: AccountId)
    requires a in db.accounts && db.accounts[a].viewOnly && db.accounts[a].nextBlock < |l| && UniqueOutputs(l) && ChunkRowsKnown(db, l, a)
    requires NoImages(db, l, a)
    ensures ChunkReceived(db, l, a) == db.txos
  {
    var r := ChunkReceived(db, l, a);
    forall id
      ensures id in r <==> id in db.txos
      ensures id in r ==> r[id] == db.txos[id]
    {
      ViewOnlyReceipts(db, l, a, id);
    }
  }

  lemma {:induction false} MarkedIsSpent(txos: map<TxoId, Txo>, spent: seq<(nat, TxoId)>, b: nat, id: TxoId)
    requires (b, id) in spent && id in txos
    ensures id in MarkSpent(txos, spent) && MarkSpent(txos, spent)[id].spent.Some?
  {
    var init, last := spent[..|spent| - 1], spent[|spent| - 1];
    assert spent == init + [last];
    MarkSpentFrame(txos, init, id);
    if last.1 != id {
      MarkedIsSpent(txos, init, b, id);
    }
  }

  /** A watched row that lands in the chunk makes some row of the table change. */
  lemma LandingChangesRows(db: Db, l: Chain, a: AccountId, id: TxoId, b: nat)
    requires a in db.accounts && db.accounts[a].nextBlock < |l| && ChunkReceived(db, l, a) == db.txos
    requires id in db.txos && Watched(db.txos[id], a) && InChunk(db, l, a, b) && Lands(l, b, db.txos[id].keyImage.value)
    ensures ScanChunk(db, l, a).txos != db.txos
  {
    var s, k := db.accounts[a].nextBlock, db.txos[id].keyImage.value;
    var index := UnspentIndex(db.txos, a);
    assert Holds(db.txos, a, k, id);
    ChunkImagesExact(l, s, ChunkEnd(l, s), b, k);
    MatchesComplete(ChunkImages(l, s, ChunkEnd(l, s)), index, b, k);
    MarkedIsSpent(db.txos, ChunkSpent(db, l, a), b, index[k]);
  }

  /**
   A rescan of known rows of a view-only account is harmless, chunk by chunk, if and only if no output of the chunk
   has a key image on record and no watched row lands in it.
   */
  lemma ViewOnlyRescanHarmlessIff(db: Db, l: Chain, a: AccountId)
    requires a in db.accounts && db.accounts[a].viewOnly && db.accounts[a].nextBlock < |l| && UniqueOutputs(l) && ChunkRowsKnown(db, l, a)
    ensures ScanChunk(db, l, a).txos == db.txos <==> NoImages(db, l, a) && NothingLands(db, l, a)
  {
    var t := ScanChunk(db, l, a).txos;
    if NoImages(db, l, a) {
      ReceiptsChangeNothing(db, l, a);
      if NothingLands(db, l, a) {
        var spent := ChunkSpent(db, l, a);
        if spent != [] {
          assert spent[0] in spent;
          ChunkSpentSound(db, l, a, spent[0].0, spent[0].1);
        }
      } else {
        var id, b :| id in db.txos && Watched(db.txos[id], a) && InChunk(db, l, a, b) && Lands(l, b, db.txos[id].keyImage.value);
        LandingChangesRows(db, l, a, id, b);
      }
    } else {
      var b, o :| InChunk(db, l, a, b) && Has(l, b, o) && o.viewer == a && o.id in db.txos && db.txos[o.id].keyImage.Some?;
      ViewOnlyReceipts(db, l, a, o.id);
      ScanRowSound(db, l, a, o.id);
    }
  }

  /** Once a rescan has dropped every key image, the five lists partition exactly when no spent coin is free, besides the usual. */
  lemma ViewOnlyPartition(db: Db, scope: Queries.Scope, token: u64)
    requires Queries.ScannedRows(db, scope, token)
    requires forall id :: Queries.Listed(db, id, scope, token) ==> db.txos[id].keyImage.None?
    ensures Queries.Partition(db, scope, token) <==>
      && Queries.Classified(db, scope, token)
      && forall id :: Queries.Listed(db, id, scope, token) && db.txos[id].spent.Some? ==> !Queries.Free(db, id)
  {
    Queries.PartitionIffSorted(db, scope, token);
    hide Queries.Partition, Queries.Classified, Queries.Free;
  }

  /** Receiving again for a view-only account erases the key image of a spent txo, which is then listed as spent and as unverified. */
  lemma ViewOnlyRescanCountsTwice(db: Db, a: AccountId, b: nat, o: TxOut, token: u64)
    requires o.viewer == a && o.targetKey in db.subaddresses && o.amount.token == token
    requires o.id in db.txos && db.txos[o.id].spent.Some? && Queries.Free(db, o.id)
    ensures var d := db.(txos := Receive(db.txos, db.subaddresses, a, false, b, o));
      var scope := Queries.Scope(Some(a), None);
      o.id in Queries.Spent(d, scope, token) && o.id in Queries.Unverified(d, scope, token)
  {
    var d := db.(txos := Receive(db.txos, db.subaddresses, a, false, b, o));
    assert Queries.Free(d, o.id);
  }
}
