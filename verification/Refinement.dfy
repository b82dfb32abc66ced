/**
 The account's txo rows as a function of the ledger: the invariant that every step of the
 wallet keeps, and its preservation by scanning.
 */
module Refinement {
  import opened Schema
  import opened Ledger
  import opened Scan
  import opened Addresses

  /**
   The wallet together with the history that the statements need: `seen` is the highest
   cursor the account has had, and `repaired` holds the txos whose spent block was written
   by orphan repair instead of by a scan.
   */
  datatype World = World(db: Db, ledger: Chain, seen: nat, repaired: set<TxoId>)

  ghost predicate CursorOk(w: World, a: AccountId) {
    && a in w.db.accounts && !w.db.accounts[a].viewOnly
    && w.db.accounts[a].firstBlock <= w.db.accounts[a].nextBlock <= w.seen
    && (w.seen <= |w.ledger| || w.seen == w.db.accounts[a].firstBlock)
  }

  /** Output `o` of block `i` is one the account has scanned and can view. */
  ghost predicate Mine(w: World, a: AccountId, i: int, o: TxOut)
    requires a in w.db.accounts
  {
    Has(w.ledger, i, o) && o.viewer == a && w.db.accounts[a].firstBlock <= i < w.seen
  }

  /** When the spent column of `o` may be set, and to what. */
  ghost predicate SpentOk(w: World, o: TxOut, spent: Option<nat>) {
    && (o.targetKey !in w.db.subaddresses ==> spent.None?)
    && (o.targetKey in w.db.subaddresses ==> forall b :: b < w.seen && Lands(w.ledger, b, ImageOf(o)) ==> spent.Some?)
    && (spent.Some? ==> exists b :: Lands(w.ledger, b, ImageOf(o)))
    && (spent.Some? && o.id !in w.repaired ==> spent.value < w.seen && Lands(w.ledger, spent.value, ImageOf(o)))
  }

  /** The row of `o` is the one its block dictates; repair calls that block the spent one. */
  ghost predicate RowOk(w: World, a: AccountId, i: nat, o: TxOut) {
    && o.id in w.db.txos
    && w.db.txos[o.id] == ReceivedRow(w.db.subaddresses, a, true, i, o, w.db.txos[o.id].spent)
    && SpentOk(w, o, w.db.txos[o.id].spent)
    && (o.id in w.repaired ==> w.db.txos[o.id].spent == Some(i))
  }

  ghost predicate RowsOk(w: World, a: AccountId)
    requires a in w.db.accounts
  {
    forall i, o :: Mine(w, a, i, o) ==> RowOk(w, a, i, o)
  }

  /** The output that txo `id` was received as, by some account; for `a` itself, a scanned one. */
  ghost predicate Origin(w: World, a: AccountId, c: AccountId, id: TxoId)
    requires a in w.db.accounts
  {
    exists i, o :: Has(w.ledger, i, o) && o.id == id && o.viewer == c && (c == a ==> Mine(w, a, i, o))
  }

  ghost predicate OwnersOk(w: World, a: AccountId)
    requires a in w.db.accounts
  {
    forall id :: id in w.db.txos && w.db.txos[id].account.Some? ==> Origin(w, a, w.db.txos[id].account.value, id)
  }

  /** A row without an owner is unspent, unless it is an output of another account. */
  ghost predicate StraysOk(w: World, a: AccountId) {
    forall id :: id in w.db.txos && w.db.txos[id].account.None? && w.db.txos[id].spent.Some?
      ==> exists i, o :: Has(w.ledger, i, o) && o.id == id && o.viewer != a
  }

  ghost predicate RepairedOk(w: World, a: AccountId) {
    forall id :: id in w.repaired ==> id in w.db.txos && w.db.txos[id].account == Some(a)
  }

  ghost predicate Inv(w: World, a: AccountId) {
    && Valid(w.ledger) && TableOk(w.db.subaddresses) && CursorOk(w, a)
    && RowsOk(w, a) && OwnersOk(w, a) && StraysOk(w, a) && RepairedOk(w, a)
  }

  /** Scanning by account `c`; only `a`'s own scans move the history of `a`. */
  ghost function SyncStep(w: World, a: AccountId, c: AccountId): World {
    var db := ScanChunk(w.db, w.ledger, c);
    World(db, w.ledger,
          if c == a && a in db.accounts && w.seen < db.accounts[a].nextBlock then db.accounts[a].nextBlock else w.seen,
          w.repaired)
  }

  // ----- Scanning by the account itself -----

  lemma RowColumns(subs: map<SpendKey, Subaddress>, a: AccountId, i: nat, o: TxOut, spent: Option<nat>)
    requires TableOk(subs) && o.viewer == a
    ensures var row := ReceivedRow(subs, a, true, i, o, spent);
      && row.account == Some(a) && row.spent == spent
      && (o.targetKey in subs ==> row.subaddress.Some? && row.keyImage == Some(ImageOf(o)))
      && (o.targetKey !in subs ==> row.subaddress.None? && row.keyImage.None?)
  {
  }

  /** In every reachable state a scanned output's row holds its amount, keys, block, assigned subaddress and key image. */
  lemma MyColumns(w: World, a: AccountId, i: nat, o: TxOut)
    requires Inv(w, a) && Mine(w, a, i, o)
    ensures o.id in w.db.txos
    ensures var row := w.db.txos[o.id];
      && row.account == Some(a) && row.value == AsI64(o.amount.value) && row.token == AsI64(o.amount.token)
      && row.targetKey == o.targetKey && row.publicKey == o.publicKey && row.received == Some(i)
      && row.subaddress == (if o.targetKey in w.db.subaddresses then Some(AsI64(o.targetKey.index)) else None)
      && row.keyImage == (if o.targetKey in w.db.subaddresses then Some(KeyImage(o.publicKey, a, o.targetKey.index)) else None)
  {
    assert RowOk(w, a, i, o);
    ReceivedColumns(w.db.subaddresses, a, true, i, o, w.db.txos[o.id].spent);
  }

  /** Before the chunk is scanned, an output that `a` has not seen yet has no spent block. */
  lemma UnseenIsUnspent(w: World, a: AccountId, i: nat, o: TxOut)
    requires Inv(w, a) && Has(w.ledger, i, o) && o.viewer == a && w.seen <= i
    ensures SpentColumn(w.db.txos, o.id).None? && o.id !in w.repaired
  {
  }

  /** After receiving, every output of `a` up to the end of the chunk has its row, with its old spent column. */
  lemma ReceivedMine(w: World, a: AccountId, i: nat, o: TxOut)
    requires Inv(w, a) && w.db.accounts[a].nextBlock < |w.ledger|
    requires Mine(SyncStep(w, a, a), a, i, o)
    ensures var r := ChunkReceived(w.db, w.ledger, a);
      && o.id in r
      && r[o.id] == ReceivedRow(w.db.subaddresses, a, true, i, o, r[o.id].spent)
      && (i < w.seen ==> RowOk(w, a, i, o) && r[o.id] == w.db.txos[o.id])
      && (w.seen <= i ==> r[o.id].spent.None? && o.id !in w.repaired)
  {
    if i < w.seen {
      assert Mine(w, a, i, o);
    } else {
      UnseenIsUnspent(w, a, i, o);
    }
    if InChunk(w.db, w.ledger, a, i) {
      ChunkReceivedAt(w.db, w.ledger, a, i, o);
    } else {
      ChunkReceivedElsewhere(w.db, w.ledger, a, o.id);
    }
  }

  /** After receiving, a row owned by `a` belongs to one of those outputs. */
  lemma ReceivedOrigin(w: World, a: AccountId, id: TxoId) returns (i: nat, o: TxOut)
    requires Inv(w, a) && w.db.accounts[a].nextBlock < |w.ledger|
    requires id in ChunkReceived(w.db, w.ledger, a) && ChunkReceived(w.db, w.ledger, a)[id].account == Some(a)
    ensures Mine(SyncStep(w, a, a), a, i, o) && o.id == id
  {
    if j, p :| InChunk(w.db, w.ledger, a, j) && Has(w.ledger, j, p) && p.viewer == a && p.id == id {
      i, o := j, p;
    } else {
      ChunkReceivedElsewhere(w.db, w.ledger, a, id);
      assert Origin(w, a, a, id);
      i, o :| Has(w.ledger, i, o) && o.id == id && o.viewer == a && Mine(w, a, i, o);
    }
  }

  lemma ReceivedUniqueImages(w: World, a: AccountId)
    requires Inv(w, a) && w.db.accounts[a].nextBlock < |w.ledger|
    ensures UniqueImages(ChunkReceived(w.db, w.ledger, a), a)
  {
    var r := ChunkReceived(w.db, w.ledger, a);
    forall k, id, id' | Holds(r, a, k, id) && Holds(r, a, k, id') ensures id == id' {
      var i, o := ReceivedOrigin(w, a, id);
      var i', o' := ReceivedOrigin(w, a, id');
      ReceivedMine(w, a, i, o);
      ReceivedMine(w, a, i', o');
      RowColumns(w.db.subaddresses, a, i, o, None);
      RowColumns(w.db.subaddresses, a, i', o', None);
      assert ImageOf(o) == k == ImageOf(o');
    }
  }

  lemma SyncKeepsRow(w: World, a: AccountId, i: nat, o: TxOut)
    requires Inv(w, a) && w.db.accounts[a].nextBlock < |w.ledger|
    requires Mine(SyncStep(w, a, a), a, i, o)
    ensures RowOk(SyncStep(w, a, a), a, i, o)
  {
    var w' := SyncStep(w, a, a);
    var r, s := ChunkReceived(w.db, w.ledger, a), w.db.accounts[a].nextBlock;
    ReceivedMine(w, a, i, o);
    ScanRowSound(w.db, w.ledger, a, o.id);
    RowColumns(w.db.subaddresses, a, i, o, r[o.id].spent);
    var spent := w'.db.txos[o.id].spent;
    if o.targetKey in w.db.subaddresses {
      forall b | b < w'.seen && Lands(w.ledger, b, ImageOf(o)) ensures spent.Some? {
        if r[o.id].spent.None? {
          assert w.seen <= b;
          ReceivedUniqueImages(w, a);
          ScanRowComplete(w.db, w.ledger, a, b, o.id);
        }
      }
    }
  }

  lemma SyncKeepsOwners(w: World, a: AccountId)
    requires Inv(w, a) && w.db.accounts[a].nextBlock < |w.ledger|
    ensures OwnersOk(SyncStep(w, a, a), a) && StraysOk(SyncStep(w, a, a), a) && RepairedOk(SyncStep(w, a, a), a)
  {
    var w' := SyncStep(w, a, a);
    forall id | id in w'.db.txos
      ensures w'.db.txos[id].account.Some? ==> Origin(w', a, w'.db.txos[id].account.value, id)
      ensures w'.db.txos[id].account.None? && w'.db.txos[id].spent.Some?
        ==> exists i, o :: Has(w.ledger, i, o) && o.id == id && o.viewer != a
    {
      ScanRowSound(w.db, w.ledger, a, id);
      if w'.db.txos[id].account == Some(a) {
        var i, o := ReceivedOrigin(w, a, id);
      } else {
        assert forall b, o :: InChunk(w.db, w.ledger, a, b) && Has(w.ledger, b, o) && o.viewer == a ==> o.id != id by {
          forall b, o | InChunk(w.db, w.ledger, a, b) && Has(w.ledger, b, o) && o.viewer == a ensures o.id != id {
            ChunkReceivedAt(w.db, w.ledger, a, b, o);
          }
        }
        ChunkReceivedElsewhere(w.db, w.ledger, a, id);
        if w'.db.txos[id].account.Some? {
          assert Origin(w, a, w.db.txos[id].account.value, id);
        }
      }
    }
    forall id | id in w.repaired ensures id in w'.db.txos && w'.db.txos[id].account == Some(a) {
      assert Origin(w, a, a, id);
      var i, o :| Has(w.ledger, i, o) && o.id == id && Mine(w, a, i, o);
      ReceivedMine(w, a, i, o);
      ScanRowSound(w.db, w.ledger, a, id);
    }
  }

  lemma SyncSelf(w: World, a: AccountId)
    requires Inv(w, a)
    ensures Inv(SyncStep(w, a, a), a)
  {
    if w.db.accounts[a].nextBlock < |w.ledger| {
      var w' := SyncStep(w, a, a);
      forall i, o | Mine(w', a, i, o) ensures RowOk(w', a, i, o) {
        SyncKeepsRow(w, a, i, o);
      }
      SyncKeepsOwners(w, a);
    }
  }

  // ----- Steps that leave the account's rows alone -----

  /** Rows owned by `a` and rows without an owner stay as they are, no row changes hands, and new rows are unowned and unspent. */
  ghost predicate TxoFrame(txos: map<TxoId, Txo>, txos': map<TxoId, Txo>, a: AccountId) {
    && (forall id :: id in txos ==>
          && id in txos' && txos'[id].account == txos[id].account
          && (txos[id].account == None || txos[id].account == Some(a) ==> txos'[id] == txos[id]))
    && (forall id :: id in txos' && id !in txos ==> txos'[id].account.None? && txos'[id].spent.None?)
  }

  /** The subaddresses of `a` are the same ones. */
  ghost predicate SameKeys(subs: map<SpendKey, Subaddress>, subs': map<SpendKey, Subaddress>, a: AccountId) {
    forall k: SpendKey :: k.account == a ==> (k in subs <==> k in subs')
  }

  ghost predicate SameHistory(w: World, w': World, a: AccountId) {
    && w'.ledger == w.ledger && w'.seen == w.seen && w'.repaired == w.repaired
    && a in w.db.accounts && a in w'.db.accounts && w'.db.accounts[a] == w.db.accounts[a]
    && TableOk(w'.db.subaddresses) && SameKeys(w.db.subaddresses, w'.db.subaddresses, a)
  }

  lemma RowsFrame(w: World, w': World, a: AccountId)
    requires Inv(w, a) && SameHistory(w, w', a)
    requires forall id :: id in w.db.txos && w.db.txos[id].account == Some(a) ==> id in w'.db.txos && w'.db.txos[id] == w.db.txos[id]
    requires OwnersOk(w', a) && StraysOk(w', a)
    ensures Inv(w', a)
  {
    forall i, o | Mine(w', a, i, o) ensures RowOk(w', a, i, o) {
      assert Mine(w, a, i, o);
      assert o.targetKey.account == a;
    }
  }

  lemma FrameKeepsInv(w: World, w': World, a: AccountId)
    requires Inv(w, a) && SameHistory(w, w', a) && TxoFrame(w.db.txos, w'.db.txos, a)
    ensures Inv(w', a)
  {
    forall id | id in w'.db.txos && w'.db.txos[id].account.Some? ensures Origin(w', a, w'.db.txos[id].account.value, id) {
      assert Origin(w, a, w.db.txos[id].account.value, id);
      var i, o :| Has(w.ledger, i, o) && o.id == id && o.viewer == w.db.txos[id].account.value
        && (o.viewer == a ==> Mine(w, a, i, o));
      assert o.viewer == a ==> Mine(w', a, i, o);
    }
    RowsFrame(w, w', a);
  }

  // ----- Scanning by another account -----

  lemma SyncOther(w: World, a: AccountId, c: AccountId)
    requires Inv(w, a) && c != a
    ensures Inv(SyncStep(w, a, c), a)
  {
    if c in w.db.accounts && w.db.accounts[c].nextBlock < |w.ledger| {
      var w' := SyncStep(w, a, c);
      forall id | id in w.db.txos && w.db.txos[id].account == Some(a)
        ensures id in w'.db.txos && w'.db.txos[id] == w.db.txos[id]
      {
        assert Origin(w, a, a, id);
        ChunkReceivedElsewhere(w.db, w.ledger, c, id);
        ScanRowSound(w.db, w.ledger, c, id);
      }
      forall id | id in w'.db.txos
        ensures w'.db.txos[id].account.Some? ==> Origin(w', a, w'.db.txos[id].account.value, id)
        ensures w'.db.txos[id].account.None? && w'.db.txos[id].spent.Some?
          ==> exists i, o :: Has(w.ledger, i, o) && o.id == id && o.viewer != a
      {
        SyncOtherRow(w, a, c, id);
      }
      RowsFrame(w, w', a);
    }
  }

  lemma SyncOtherRow(w: World, a: AccountId, c: AccountId, id: TxoId)
    requires Inv(w, a) && c != a && c in w.db.accounts && w.db.accounts[c].nextBlock < |w.ledger|
    requires id in SyncStep(w, a, c).db.txos
    ensures var w' := SyncStep(w, a, c);
      && (w'.db.txos[id].account.Some? ==> Origin(w', a, w'.db.txos[id].account.value, id))
      && (w'.db.txos[id].account.None? && w'.db.txos[id].spent.Some? ==>
            exists i, o :: Has(w.ledger, i, o) && o.id == id && o.viewer != a)
  {
    var w' := SyncStep(w, a, c);
    ScanRowSound(w.db, w.ledger, c, id);
    if b, o :| InChunk(w.db, w.ledger, c, b) && Has(w.ledger, b, o) && o.viewer == c && o.id == id {
      ChunkReceivedAt(w.db, w.ledger, c, b, o);
    } else {
      ChunkReceivedElsewhere(w.db, w.ledger, c, id);
      if w'.db.txos[id].account.Some? {
        var v := w.db.txos[id].account.value;
        assert Origin(w, a, v, id);
        var i, o :| Has(w.ledger, i, o) && o.id == id && o.viewer == v && (v == a ==> Mine(w, a, i, o));
        assert v == a ==> Mine(w', a, i, o);
      }
    }
  }

  // ----- New blocks -----

  lemma AppendKeepsInv(w: World, a: AccountId, block: Block)
    requires Inv(w, a) && Valid(w.ledger + [block])
    ensures Inv(w.(ledger := w.ledger + [block]), a)
  {
    var w' := w.(ledger := w.ledger + [block]);
    PrefixFacts(w.ledger, w'.ledger);
    hide Has, Lands;
    forall i, o | Mine(w', a, i, o) ensures RowOk(w', a, i, o) {
      AppendKeepsRow(w, a, block, i, o);
    }
    forall id | id in w'.db.txos && w'.db.txos[id].account.Some? ensures Origin(w', a, w'.db.txos[id].account.value, id) {
      var c := w.db.txos[id].account.value;
      assert Origin(w, a, c, id);
      var i, o :| Has(w.ledger, i, o) && o.id == id && o.viewer == c && (c == a ==> Mine(w, a, i, o));
      InRange(w.ledger, i, o);
    }
    forall id | id in w'.db.txos && w'.db.txos[id].account.None? && w'.db.txos[id].spent.Some?
      ensures exists i, o :: Has(w'.ledger, i, o) && o.id == id && o.viewer != a
    {
      var i, o :| Has(w.ledger, i, o) && o.id == id && o.viewer != a;
      InRange(w.ledger, i, o);
    }
  }

  lemma InRange(l: Chain, i: int, o: TxOut)
    requires Has(l, i, o)
    ensures 0 <= i < |l|
  {
  }

  lemma AppendKeepsRow(w: World, a: AccountId, block: Block, i: nat, o: TxOut)
    requires Inv(w, a) && Mine(w.(ledger := w.ledger + [block]), a, i, o)
    ensures RowOk(w.(ledger := w.ledger + [block]), a, i, o)
  {
    var l, l' := w.ledger, w.ledger + [block];
    PrefixFacts(l, l');
    assert Mine(w, a, i, o);
    var spent := w.db.txos[o.id].spent;
    forall b | b < w.seen && Lands(l', b, ImageOf(o)) ensures Lands(l, b, ImageOf(o)) {
    }
    if spent.Some? {
      var b :| Lands(l, b, ImageOf(o));
      assert Lands(l', b, ImageOf(o));
    }
  }
}
