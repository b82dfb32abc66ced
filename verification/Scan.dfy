/**
 Scanning one chunk of blocks for an account, as a function on the database. Each phase is
 given as the fold its loop computes, followed by lemmas saying what the fold means for one
 row or one log.
 */
module Scan {
  import opened Schema
  import opened Ledger

  const BLOCKS_CHUNK_SIZE: nat := 1_000

  // ----- Loading a chunk -----

  /** The block after the last block of the chunk that starts at `start`. */
  function ChunkEnd(l: Chain, start: nat): (e: nat)
    requires start <= |l|
    ensures start <= e <= |l|
  {
    if start + BLOCKS_CHUNK_SIZE < |l| then start + BLOCKS_CHUNK_SIZE else |l|
  }

  function Tag<T>(b: nat, xs: seq<T>): (r: seq<(nat, T)>)
    ensures |r| == |xs| && forall j :: 0 <= j < |xs| ==> r[j] == (b, xs[j])
  {
    seq(|xs|, j requires 0 <= j < |xs| => (b, xs[j]))
  }

  function ChunkOutputs(l: Chain, s: nat, e: nat): seq<(nat, TxOut)>
    requires s <= e <= |l|
    decreases e
  {
    if s == e then [] else ChunkOutputs(l, s, e - 1) + Tag(e - 1, l[e - 1].outputs)
  }

  function ChunkImages(l: Chain, s: nat, e: nat): seq<(nat, KeyImage)>
    requires s <= e <= |l|
    decreases e
  {
    if s == e then [] else ChunkImages(l, s, e - 1) + Tag(e - 1, l[e - 1].keyImages)
  }

  lemma {:induction false} ChunkOutputsExact(l: Chain, s: nat, e: nat, b: nat, o: TxOut)
    requires s <= e <= |l|
    ensures (b, o) in ChunkOutputs(l, s, e) <==> s <= b < e && Has(l, b, o)
    decreases e
  {
    if s < e {
      ChunkOutputsExact(l, s, e - 1, b, o);
      var here := Tag(e - 1, l[e - 1].outputs);
      assert (b, o) in here <==> b == e - 1 && o in l[b].outputs by {
        if b == e - 1 && o in l[b].outputs {
          var j :| 0 <= j < |l[b].outputs| && l[b].outputs[j] == o;
          assert here[j] == (b, o);
        }
      }
    }
  }

  lemma {:induction false} ChunkImagesExact(l: Chain, s: nat, e: nat, b: nat, k: KeyImage)
    requires s <= e <= |l|
    ensures (b, k) in ChunkImages(l, s, e) <==> s <= b < e && Lands(l, b, k)
    decreases e
  {
    if s < e {
      ChunkImagesExact(l, s, e - 1, b, k);
      var here := Tag(e - 1, l[e - 1].keyImages);
      assert (b, k) in here <==> b == e - 1 && k in l[b].keyImages by {
        if b == e - 1 && k in l[b].keyImages {
          var j :| 0 <= j < |l[b].keyImages| && l[b].keyImages[j] == k;
          assert here[j] == (b, k);
        }
      }
    }
  }

  /** Key images are loaded in block order. */
  ghost predicate InBlockOrder<T>(xs: seq<(nat, T)>) {
    forall i, j :: 0 <= i < j < |xs| ==> xs[i].0 <= xs[j].0
  }

  lemma {:induction false} ChunkImagesOrdered(l: Chain, s: nat, e: nat)
    requires s <= e <= |l|
    ensures InBlockOrder(ChunkImages(l, s, e))
    ensures forall x :: x in ChunkImages(l, s, e) ==> s <= x.0 < e
    decreases e
  {
    if s < e {
      ChunkImagesOrdered(l, s, e - 1);
      var before, all := ChunkImages(l, s, e - 1), ChunkImages(l, s, e);
      forall i, j | 0 <= i < j < |all| ensures all[i].0 <= all[j].0 {
        if i < |before| {
          assert before[i] in before;
        }
      }
    }
  }

  // ----- Receiving -----

  /** The outputs whose amount the account's view key decodes. */
  function Decoded(outs: seq<(nat, TxOut)>, a: AccountId): (r: seq<(nat, TxOut)>)
    ensures forall x :: x in r <==> x in outs && x.1.viewer == a
  {
    if outs == [] then []
    else
      var init, last := outs[..|outs| - 1], outs[|outs| - 1];
      assert outs == init + [last];
      Decoded(init, a) + if last.1.viewer == a then [last] else []
  }

  function FindSubaddress(subs: map<SpendKey, Subaddress>, key: SpendKey): Option<i64> {
    if key in subs then Some(subs[key].index) else None
  }

  /** The subaddress an output was sent to and, for an account with spend keys, its key image. */
  function DecodeKeyImage(o: TxOut, a: AccountId, full: bool, sub: Option<i64>): Option<KeyImage> {
    if full && sub.Some? then Some(KeyImage(o.publicKey, a, AsU64(sub.value))) else None
  }

  /** The row of an output received in block `b`; only the spent column survives from an earlier row. */
  function ReceivedRow(subs: map<SpendKey, Subaddress>, a: AccountId, full: bool, b: nat, o: TxOut, spent: Option<nat>): Txo {
    var sub := FindSubaddress(subs, o.targetKey);
    Txo(Some(a), AsI64(o.amount.value), AsI64(o.amount.token), o.targetKey, o.publicKey,
        sub, DecodeKeyImage(o, a, full, sub), Some(b), spent)
  }

  /** Column by column: what the amount, the keys, the block and the assigned subaddress of the output dictate. */
  lemma ReceivedColumns(subs: map<SpendKey, Subaddress>, a: AccountId, full: bool, b: nat, o: TxOut, spent: Option<nat>)
    ensures ReceivedRow(subs, a, full, b, o, spent) ==
      Txo(Some(a), AsI64(o.amount.value), AsI64(o.amount.token), o.targetKey, o.publicKey,
          if o.targetKey in subs then Some(subs[o.targetKey].index) else None,
          if full && o.targetKey in subs then Some(KeyImage(o.publicKey, a, AsU64(subs[o.targetKey].index))) else None,
          Some(b), spent)
  {
  }

  function SpentColumn(txos: map<TxoId, Txo>, id: TxoId): Option<nat> {
    if id in txos then txos[id].spent else None
  }

  function Receive(txos: map<TxoId, Txo>, subs: map<SpendKey, Subaddress>, a: AccountId, full: bool, b: nat, o: TxOut): map<TxoId, Txo> {
    txos[o.id := ReceivedRow(subs, a, full, b, o, SpentColumn(txos, o.id))]
  }

  function ReceiveAll(txos: map<TxoId, Txo>, subs: map<SpendKey, Subaddress>, a: AccountId, full: bool, outs: seq<(nat, TxOut)>): map<TxoId, Txo> {
    if outs == [] then txos
    else
      var last := outs[|outs| - 1];
      Receive(ReceiveAll(txos, subs, a, full, outs[..|outs| - 1]), subs, a, full, last.0, last.1)
  }

  lemma {:induction false} ReceiveAllElsewhere(txos: map<TxoId, Txo>, subs: map<SpendKey, Subaddress>, a: AccountId, full: bool,
                                               outs: seq<(nat, TxOut)>, id: TxoId)
    requires forall x :: x in outs ==> x.1.id != id
    ensures var r := ReceiveAll(txos, subs, a, full, outs);
      (id in r <==> id in txos) && (id in txos ==> r[id] == txos[id])
  {
    if outs != [] {
      var init := outs[..|outs| - 1];
      assert outs[|outs| - 1] in outs;
      assert forall x :: x in init ==> x in outs;
      ReceiveAllElsewhere(txos, subs, a, full, init, id);
    }
  }

  lemma {:induction false} ReceiveAllSpent(txos: map<TxoId, Txo>, subs: map<SpendKey, Subaddress>, a: AccountId, full: bool,
                                           outs: seq<(nat, TxOut)>, id: TxoId)
    ensures SpentColumn(ReceiveAll(txos, subs, a, full, outs), id) == SpentColumn(txos, id)
  {
    if outs != [] {
      ReceiveAllSpent(txos, subs, a, full, outs[..|outs| - 1], id);
    }
  }

  /** Every decoded output gets the row of its block, whatever the table held before. */
  lemma {:induction false} ReceiveAllAt(txos: map<TxoId, Txo>, subs: map<SpendKey, Subaddress>, a: AccountId, full: bool,
                                        outs: seq<(nat, TxOut)>, b: nat, o: TxOut)
    requires (b, o) in outs
    requires forall x, y :: x in outs && y in outs && x.1.id == y.1.id ==> x == y
    ensures var r := ReceiveAll(txos, subs, a, full, outs);
      o.id in r && r[o.id] == ReceivedRow(subs, a, full, b, o, SpentColumn(txos, o.id))
    ensures ReceiveAll(txos, subs, a, full, outs)[o.id] ==
      Txo(Some(a), AsI64(o.amount.value), AsI64(o.amount.token), o.targetKey, o.publicKey,
          if o.targetKey in subs then Some(subs[o.targetKey].index) else None,
          if full && o.targetKey in subs then Some(KeyImage(o.publicKey, a, AsU64(subs[o.targetKey].index))) else None,
          Some(b), if o.id in txos then txos[o.id].spent else None)
  {
    ReceivedColumns(subs, a, full, b, o, SpentColumn(txos, o.id));
    var init, last := outs[..|outs| - 1], outs[|outs| - 1];
    assert outs == init + [last];
    if last.1.id == o.id {
      assert last in outs;
      ReceiveAllSpent(txos, subs, a, full, init, o.id);
    } else {
      assert (b, o) in init;
      assert forall x :: x in init ==> x in outs;
      ReceiveAllAt(txos, subs, a, full, init, b, o);
    }
  }

  // ----- Matching key images -----

  /** A row whose key image is still looked for: owned, addressed, with a key image and not spent. */
  predicate Watched(row: Txo, a: AccountId) {
    row.account == Some(a) && row.keyImage.Some? && row.subaddress.Some? && row.spent.None?
  }

  predicate Holds(txos: map<TxoId, Txo>, a: AccountId, k: KeyImage, id: TxoId) {
    id in txos && Watched(txos[id], a) && txos[id].keyImage == Some(k)
  }

  /** No two watched rows share a key image. */
  ghost predicate UniqueImages(txos: map<TxoId, Txo>, a: AccountId) {
    forall k, id, id' :: Holds(txos, a, k, id) && Holds(txos, a, k, id') ==> id == id'
  }

  ghost function WatchedImages(txos: map<TxoId, Txo>, a: AccountId): set<KeyImage> {
    set id | id in txos && Watched(txos[id], a) :: txos[id].keyImage.value
  }

  /** The index from key image to a row that holds it. */
  ghost function UnspentIndex(txos: map<TxoId, Txo>, a: AccountId): (m: map<KeyImage, TxoId>)
    ensures forall k :: k in m ==> Holds(txos, a, k, m[k])
    ensures forall k, id :: Holds(txos, a, k, id) ==> k in m
  {
    map k | k in WatchedImages(txos, a) :: var id :| id in txos && Watched(txos[id], a) && txos[id].keyImage.value == k; id
  }

  function Matches(images: seq<(nat, KeyImage)>, index: map<KeyImage, TxoId>): seq<(nat, TxoId)> {
    if images == [] then []
    else
      var last := images[|images| - 1];
      Matches(images[..|images| - 1], index) + if last.1 in index then [(last.0, index[last.1])] else []
  }

  lemma {:induction false} MatchesComplete(images: seq<(nat, KeyImage)>, index: map<KeyImage, TxoId>, b: nat, k: KeyImage)
    requires (b, k) in images && k in index
    ensures (b, index[k]) in Matches(images, index)
  {
    var init, last := images[..|images| - 1], images[|images| - 1];
    assert images == init + [last];
    if (b, k) != last {
      assert (b, k) in init;
      MatchesComplete(init, index, b, k);
    }
  }

  lemma {:induction false} MatchesSound(images: seq<(nat, KeyImage)>, index: map<KeyImage, TxoId>, b: nat, id: TxoId)
    requires (b, id) in Matches(images, index)
    ensures exists k :: (b, k) in images && k in index && index[k] == id
  {
    var init, last := images[..|images| - 1], images[|images| - 1];
    assert images == init + [last];
    if (b, id) in Matches(init, index) {
      MatchesSound(init, index, b, id);
      var k :| (b, k) in init && k in index && index[k] == id;
      assert (b, k) in images;
    } else {
      assert last in images;
    }
  }

  lemma {:induction false} MatchesOrdered(images: seq<(nat, KeyImage)>, index: map<KeyImage, TxoId>)
    requires InBlockOrder(images)
    ensures InBlockOrder(Matches(images, index))
    ensures images != [] ==> forall x :: x in Matches(images, index) ==> x.0 <= images[|images| - 1].0
  {
    if images != [] {
      var init := images[..|images| - 1];
      MatchesOrdered(init, index);
    }
  }

  // ----- Marking spent -----

  function MarkSpentOne(txos: map<TxoId, Txo>, b: nat, id: TxoId): map<TxoId, Txo> {
    if id in txos then txos[id := txos[id].(spent := Some(b))] else txos
  }

  function MarkSpent(txos: map<TxoId, Txo>, spent: seq<(nat, TxoId)>): map<TxoId, Txo> {
    if spent == [] then txos
    else
      var last := spent[|spent| - 1];
      MarkSpentOne(MarkSpent(txos, spent[..|spent| - 1]), last.0, last.1)
  }

  lemma {:induction false} MarkSpentFrame(txos: map<TxoId, Txo>, spent: seq<(nat, TxoId)>, id: TxoId)
    ensures var r := MarkSpent(txos, spent);
      && (id in r <==> id in txos)
      && (id in txos ==> r[id] == txos[id].(spent := r[id].spent))
      && (id in txos ==> r[id].spent == txos[id].spent || exists b :: r[id].spent == Some(b) && (b, id) in spent)
  {
    if spent != [] {
      var init, last := spent[..|spent| - 1], spent[|spent| - 1];
      assert spent == init + [last];
      MarkSpentFrame(txos, init, id);
      var mid, r := MarkSpent(txos, init), MarkSpent(txos, spent);
      if id in txos && last.1 != id && mid[id].spent != txos[id].spent {
        var b :| mid[id].spent == Some(b) && (b, id) in init;
        assert r[id].spent == Some(b) && (b, id) in spent;
      } else if id in txos && last.1 == id {
        assert r[id].spent == Some(last.0) && (last.0, id) in spent;
      }
    }
  }

  lemma {:induction false} MarkSpentAt(txos: map<TxoId, Txo>, spent: seq<(nat, TxoId)>, b: nat, id: TxoId)
    requires (b, id) in spent && id in txos
    requires forall c :: (c, id) in spent ==> c == b
    ensures var r := MarkSpent(txos, spent); id in r && r[id] == txos[id].(spent := Some(b))
  {
    var init, last := spent[..|spent| - 1], spent[|spent| - 1];
    assert spent == init + [last];
    MarkSpentFrame(txos, init, id);
    if last == (b, id) {
    } else {
      assert last.1 != id by {
        assert last in spent;
      }
      assert (b, id) in init;
      assert forall c :: (c, id) in init ==> (c, id) in spent;
      MarkSpentAt(txos, init, b, id);
    }
  }

  // ----- Finalising and failing logs -----

  predicate Pending(log: Log) {
    log.submitted.Some? && !log.failed && log.finalized.None?
  }

  function FinaliseOne(logs: map<LogId, Log>, inputs: set<(LogId, TxoId)>, b: nat, id: TxoId): map<LogId, Log> {
    map l | l in logs :: if (l, id) in inputs && Pending(logs[l]) then logs[l].(finalized := Some(b)) else logs[l]
  }

  function Finalise(logs: map<LogId, Log>, inputs: set<(LogId, TxoId)>, spent: seq<(nat, TxoId)>): map<LogId, Log> {
    if spent == [] then logs
    else
      var last := spent[|spent| - 1];
      FinaliseOne(Finalise(logs, inputs, spent[..|spent| - 1]), inputs, last.0, last.1)
  }

  /** The block of the first spent txo that is an input of `l`. */
  function FirstHit(inputs: set<(LogId, TxoId)>, spent: seq<(nat, TxoId)>, l: LogId): Option<nat> {
    if spent == [] then None
    else
      var earlier := FirstHit(inputs, spent[..|spent| - 1], l);
      if earlier.Some? then earlier
      else if (l, spent[|spent| - 1].1) in inputs then Some(spent[|spent| - 1].0)
      else None
  }

  lemma {:induction false} FirstHitFound(inputs: set<(LogId, TxoId)>, spent: seq<(nat, TxoId)>, l: LogId)
    ensures var h := FirstHit(inputs, spent, l); h.Some? ==> exists id :: (h.value, id) in spent && (l, id) in inputs
  {
    var h := FirstHit(inputs, spent, l);
    if h.Some? {
      var init, last := spent[..|spent| - 1], spent[|spent| - 1];
      FirstHitFound(inputs, init, l);
      if FirstHit(inputs, init, l).Some? {
        var id :| (h.value, id) in init && (l, id) in inputs;
        assert (h.value, id) in spent;
      } else {
        assert (h.value, last.1) in spent;
      }
    }
  }

  lemma {:induction false} FirstHitLeast(inputs: set<(LogId, TxoId)>, spent: seq<(nat, TxoId)>, l: LogId, i: nat)
    requires InBlockOrder(spent) && i < |spent| && (l, spent[i].1) in inputs
    ensures var h := FirstHit(inputs, spent, l); h.Some? && h.value <= spent[i].0
  {
    var init := spent[..|spent| - 1];
    if i < |init| {
      FirstHitLeast(inputs, init, l, i);
    } else if FirstHit(inputs, init, l).Some? {
      FirstHitFound(inputs, init, l);
      var id :| (FirstHit(inputs, init, l).value, id) in init;
      var j :| 0 <= j < |init| && init[j] == (FirstHit(inputs, init, l).value, id);
      assert spent[j].0 <= spent[i].0;
    }
  }

  lemma FirstHitExact(inputs: set<(LogId, TxoId)>, spent: seq<(nat, TxoId)>, l: LogId)
    requires InBlockOrder(spent)
    ensures var h := FirstHit(inputs, spent, l);
      && (h.Some? ==> exists id :: (h.value, id) in spent && (l, id) in inputs)
      && (forall b, id :: (b, id) in spent && (l, id) in inputs ==> h.Some? && h.value <= b)
  {
    hide FirstHit;
    FirstHitFound(inputs, spent, l);
    forall b, id | (b, id) in spent && (l, id) in inputs
      ensures FirstHit(inputs, spent, l).Some? && FirstHit(inputs, spent, l).value <= b
    {
      var i :| 0 <= i < |spent| && spent[i] == (b, id);
      FirstHitLeast(inputs, spent, l, i);
    }
  }

  lemma {:induction false} FinaliseKeys(logs: map<LogId, Log>, inputs: set<(LogId, TxoId)>, spent: seq<(nat, TxoId)>)
    ensures Finalise(logs, inputs, spent).Keys == logs.Keys
  {
    if spent != [] {
      FinaliseKeys(logs, inputs, spent[..|spent| - 1]);
    }
  }

  /** A pending log is finalised at the first block that spends one of its inputs; no other log changes. */
  lemma {:induction false} FinaliseAt(logs: map<LogId, Log>, inputs: set<(LogId, TxoId)>, spent: seq<(nat, TxoId)>, l: LogId)
    requires l in logs
    ensures var r, h := Finalise(logs, inputs, spent), FirstHit(inputs, spent, l);
      l in r && r[l] == if Pending(logs[l]) && h.Some? then logs[l].(finalized := h) else logs[l]
  {
    if spent != [] {
      FinaliseAt(logs, inputs, spent[..|spent| - 1], l);
    }
  }

  /** Unfinalised logs whose tombstone lies below `next` fail; ledger lengths are below 2^63, so `next` is its own i64. */
  predicate Expired(log: Log, next: nat) {
    !log.failed && log.finalized.None? && log.tombstone.Some? && log.tombstone.value < next
  }

  function FailExpired(logs: map<LogId, Log>, next: nat): map<LogId, Log> {
    map l | l in logs :: if Expired(logs[l], next) then logs[l].(failed := true) else logs[l]
  }

  /** Failing at one block and then at a later or earlier one is failing once at the later: chunk ends in between do not matter. */
  lemma TombstonesAddUp(logs: map<LogId, Log>, n: nat, m: nat)
    ensures FailExpired(FailExpired(logs, n), m) == FailExpired(logs, if n < m then m else n)
    ensures forall l :: l in logs ==>
      FailExpired(logs, n)[l] == logs[l].(failed := logs[l].failed || (logs[l].finalized.None? && logs[l].tombstone.Some? && logs[l].tombstone.value < n))
  {
  }

  // ----- The whole chunk -----

  ghost function ChunkReceived(db: Db, l: Chain, a: AccountId): map<TxoId, Txo>
    requires a in db.accounts && db.accounts[a].nextBlock <= |l|
  {
    var s := db.accounts[a].nextBlock;
    ReceiveAll(db.txos, db.subaddresses, a, !db.accounts[a].viewOnly, Decoded(ChunkOutputs(l, s, ChunkEnd(l, s)), a))
  }

  ghost function ChunkSpent(db: Db, l: Chain, a: AccountId): seq<(nat, TxoId)>
    requires a in db.accounts && db.accounts[a].nextBlock <= |l|
  {
    var s := db.accounts[a].nextBlock;
    Matches(ChunkImages(l, s, ChunkEnd(l, s)), UnspentIndex(ChunkReceived(db, l, a), a))
  }

  /** The cursor of `a` after its next chunk. */
  function AdvanceCursor(accounts: map<AccountId, Account>, l: Chain, a: AccountId): map<AccountId, Account> {
    if a in accounts && accounts[a].nextBlock < |l| then accounts[a := accounts[a].(nextBlock := ChunkEnd(l, accounts[a].nextBlock))]
    else accounts
  }

  /** The database after scanning the next chunk for `a`; a removed account or an exhausted ledger changes nothing. */
  ghost function ScanChunk(db: Db, l: Chain, a: AccountId): Db {
    if a !in db.accounts || db.accounts[a].nextBlock >= |l| then db
    else
      var e := ChunkEnd(l, db.accounts[a].nextBlock);
      var spent := ChunkSpent(db, l, a);
      db.(txos := MarkSpent(ChunkReceived(db, l, a), spent),
          logs := FailExpired(Finalise(db.logs, db.inputs, spent), e),
          accounts := db.accounts[a := db.accounts[a].(nextBlock := e)])
  }

  /** The map takes a key image to a row that holds it, whenever there is one. */
  ghost predicate IsIndex(txos: map<TxoId, Txo>, a: AccountId, m: map<KeyImage, TxoId>) {
    (forall k :: k in m ==> Holds(txos, a, k, m[k])) && (forall k, id :: Holds(txos, a, k, id) ==> k in m)
  }

  /** The database after scanning the next chunk with this index, whichever of several rows it names for a key image. */
  ghost function ScanWith(db: Db, l: Chain, a: AccountId, index: map<KeyImage, TxoId>): Db
    requires a in db.accounts && db.accounts[a].nextBlock < |l|
  {
    var s := db.accounts[a].nextBlock;
    var spent := Matches(ChunkImages(l, s, ChunkEnd(l, s)), index);
    db.(txos := MarkSpent(ChunkReceived(db, l, a), spent),
        logs := FailExpired(Finalise(db.logs, db.inputs, spent), ChunkEnd(l, s)),
        accounts := db.accounts[a := db.accounts[a].(nextBlock := ChunkEnd(l, s))])
  }

  // ----- A round over all the accounts -----

  /** One account's turn: scan its next chunk, or at the tip end its resync. */
  ghost function SyncOne(db: Db, l: Chain, a: AccountId): Db {
    if a in db.accounts && db.accounts[a].nextBlock < |l| then ScanChunk(db, l, a)
    else if a in db.accounts && |l| > 0 then db.(accounts := db.accounts[a := db.accounts[a].(resyncing := false)])
    else db
  }

  /** The accounts take their turns in `order`. */
  ghost function SyncRound(db: Db, l: Chain, order: seq<AccountId>): Db {
    if order == [] then db else SyncOne(SyncRound(db, l, order[..|order| - 1]), l, order[|order| - 1])
  }

  lemma {:induction false} EmptyRound(db: Db, order: seq<AccountId>)
    ensures SyncRound(db, [], order) == db
  {
    if order != [] {
      EmptyRound(db, order[..|order| - 1]);
    }
  }

  /** An account's row after its turn. */
  function SyncedAccount(accounts: map<AccountId, Account>, l: Chain, a: AccountId): Account
    requires a in accounts
  {
    if accounts[a].nextBlock < |l| then AdvanceCursor(accounts, l, a)[a] else accounts[a].(resyncing := false)
  }

  /** A turn moves the cursor by 1000 blocks or to the tip; at the tip it ends the resync. */
  lemma TurnExactly(accounts: map<AccountId, Account>, l: Chain, a: AccountId)
    requires a in accounts
    ensures var row := accounts[a];
      SyncedAccount(accounts, l, a) ==
        if row.nextBlock + 1_000 < |l| then row.(nextBlock := row.nextBlock + 1_000)
        else if row.nextBlock < |l| then row.(nextBlock := |l|)
        else row.(resyncing := false)
  {
  }

  /** An account's turn depends on its own row only. */
  lemma TurnsAreApart(accounts: map<AccountId, Account>, listed: map<AccountId, Account>, l: Chain, a: AccountId)
    requires a in accounts && a in listed && accounts[a] == listed[a]
    ensures SyncedAccount(accounts, l, a) == SyncedAccount(listed, l, a)
  {
  }

  // ----- What a chunk does to one row -----

  /** Block `b` belongs to the chunk that `a` scans next. */
  predicate InChunk(db: Db, l: Chain, a: AccountId, b: int)
    requires a in db.accounts && db.accounts[a].nextBlock <= |l|
  {
    db.accounts[a].nextBlock <= b < ChunkEnd(l, db.accounts[a].nextBlock)
  }

  lemma ChunkReceivedAt(db: Db, l: Chain, a: AccountId, b: nat, o: TxOut)
    requires a in db.accounts && db.accounts[a].nextBlock <= |l| && UniqueOutputs(l)
    requires InChunk(db, l, a, b) && Has(l, b, o) && o.viewer == a
    ensures var r := ChunkReceived(db, l, a);
      && o.id in r
      && r[o.id] == ReceivedRow(db.subaddresses, a, !db.accounts[a].viewOnly, b, o, SpentColumn(db.txos, o.id))
  {
    var s := db.accounts[a].nextBlock;
    var e := ChunkEnd(l, s);
    var outs := Decoded(ChunkOutputs(l, s, e), a);
    ChunkOutputsExact(l, s, e, b, o);
    forall x, y | x in outs && y in outs && x.1.id == y.1.id ensures x == y {
      ChunkOutputsExact(l, s, e, x.0, x.1);
      ChunkOutputsExact(l, s, e, y.0, y.1);
    }
    ReceiveAllAt(db.txos, db.subaddresses, a, !db.accounts[a].viewOnly, outs, b, o);
  }

  lemma ChunkReceivedElsewhere(db: Db, l: Chain, a: AccountId, id: TxoId)
    requires a in db.accounts && db.accounts[a].nextBlock <= |l|
    requires forall b, o :: InChunk(db, l, a, b) && Has(l, b, o) && o.viewer == a ==> o.id != id
    ensures var r := ChunkReceived(db, l, a);
      (id in r <==> id in db.txos) && (id in db.txos ==> r[id] == db.txos[id])
  {
    var s := db.accounts[a].nextBlock;
    var e := ChunkEnd(l, s);
    var outs := Decoded(ChunkOutputs(l, s, e), a);
    forall x | x in outs ensures x.1.id != id {
      ChunkOutputsExact(l, s, e, x.0, x.1);
    }
    ReceiveAllElsewhere(db.txos, db.subaddresses, a, !db.accounts[a].viewOnly, outs, id);
  }

  lemma ChunkSpentSound(db: Db, l: Chain, a: AccountId, b: nat, id: TxoId)
    requires a in db.accounts && db.accounts[a].nextBlock <= |l|
    requires (b, id) in ChunkSpent(db, l, a)
    ensures var r := ChunkReceived(db, l, a);
      InChunk(db, l, a, b) && id in r && Watched(r[id], a) && Lands(l, b, r[id].keyImage.value)
  {
    var s := db.accounts[a].nextBlock;
    var images, index := ChunkImages(l, s, ChunkEnd(l, s)), UnspentIndex(ChunkReceived(db, l, a), a);
    MatchesSound(images, index, b, id);
    var k :| (b, k) in images && k in index && index[k] == id;
    ChunkImagesExact(l, s, ChunkEnd(l, s), b, k);
  }

  lemma ChunkSpentComplete(db: Db, l: Chain, a: AccountId, b: nat, id: TxoId)
    requires a in db.accounts && db.accounts[a].nextBlock <= |l|
    requires var r := ChunkReceived(db, l, a);
      && UniqueImages(r, a)
      && id in r && Watched(r[id], a) && InChunk(db, l, a, b) && Lands(l, b, r[id].keyImage.value)
    ensures (b, id) in ChunkSpent(db, l, a)
  {
    var s, r := db.accounts[a].nextBlock, ChunkReceived(db, l, a);
    var k := r[id].keyImage.value;
    assert Holds(r, a, k, id);
    ChunkImagesExact(l, s, ChunkEnd(l, s), b, k);
    MatchesComplete(ChunkImages(l, s, ChunkEnd(l, s)), UnspentIndex(r, a), b, k);
  }

  /** The chunk only adds a spent block, only to a watched row, and only the block its key image landed in. */
  lemma ScanRowSound(db: Db, l: Chain, a: AccountId, id: TxoId)
    requires a in db.accounts && db.accounts[a].nextBlock < |l|
    ensures var r, r' := ChunkReceived(db, l, a), ScanChunk(db, l, a).txos;
      && (id in r' <==> id in r)
      && (id in r ==> r'[id] == r[id].(spent := r'[id].spent))
      && (id in r && r'[id] != r[id] ==>
            && Watched(r[id], a) && r'[id].spent.Some?
            && InChunk(db, l, a, r'[id].spent.value) && Lands(l, r'[id].spent.value, r[id].keyImage.value))
  {
    var r, spent := ChunkReceived(db, l, a), ChunkSpent(db, l, a);
    MarkSpentFrame(r, spent, id);
    if id in r && MarkSpent(r, spent)[id].spent != r[id].spent {
      var b :| MarkSpent(r, spent)[id].spent == Some(b) && (b, id) in spent;
      ChunkSpentSound(db, l, a, b, id);
    }
  }

  /** After the chunk, every output of it has the columns its block dictates, for full and view-only accounts alike. */
  lemma ScannedColumns(db: Db, l: Chain, a: AccountId, b: nat, o: TxOut)
    requires a in db.accounts && db.accounts[a].nextBlock < |l| && UniqueOutputs(l)
    requires InChunk(db, l, a, b) && Has(l, b, o) && o.viewer == a
    ensures o.id in ScanChunk(db, l, a).txos
    ensures var row := ScanChunk(db, l, a).txos[o.id];
      && row.account == Some(a) && row.value == AsI64(o.amount.value) && row.token == AsI64(o.amount.token)
      && row.targetKey == o.targetKey && row.publicKey == o.publicKey && row.received == Some(b)
      && row.subaddress == (if o.targetKey in db.subaddresses then Some(db.subaddresses[o.targetKey].index) else None)
      && row.keyImage == (if !db.accounts[a].viewOnly && o.targetKey in db.subaddresses
                          then Some(KeyImage(o.publicKey, a, AsU64(db.subaddresses[o.targetKey].index))) else None)
  {
    ChunkReceivedAt(db, l, a, b, o);
    ReceivedColumns(db.subaddresses, a, !db.accounts[a].viewOnly, b, o, SpentColumn(db.txos, o.id));
    ScanRowSound(db, l, a, o.id);
  }

  /** A watched row whose key image lands in the chunk is marked with that block. */
  lemma ScanRowComplete(db: Db, l: Chain, a: AccountId, b: nat, id: TxoId)
    requires a in db.accounts && db.accounts[a].nextBlock < |l| && SpentOnce(l)
    requires var r := ChunkReceived(db, l, a);
      && UniqueImages(r, a)
      && id in r && Watched(r[id], a) && InChunk(db, l, a, b) && Lands(l, b, r[id].keyImage.value)
    ensures id in ScanChunk(db, l, a).txos && ScanChunk(db, l, a).txos[id].spent == Some(b)
  {
    var r, spent := ChunkReceived(db, l, a), ChunkSpent(db, l, a);
    ChunkSpentComplete(db, l, a, b, id);
    forall c | (c, id) in spent ensures c == b {
      ChunkSpentSound(db, l, a, c, id);
    }
    MarkSpentAt(r, spent, b, id);
  }

  /** The chunk's verdict on one log. */
  lemma ScanLog(db: Db, l: Chain, a: AccountId, log: LogId)
    requires a in db.accounts && db.accounts[a].nextBlock < |l|
    ensures ScanChunk(db, l, a).logs.Keys == db.logs.Keys
    ensures log in db.logs ==>
      var spent, e := ChunkSpent(db, l, a), ChunkEnd(l, db.accounts[a].nextBlock);
      var hit := FirstHit(db.inputs, spent, log);
      var mid := if Pending(db.logs[log]) && hit.Some? then db.logs[log].(finalized := hit) else db.logs[log];
      ScanChunk(db, l, a).logs[log] == if Expired(mid, e) then mid.(failed := true) else mid
  {
    var spent := ChunkSpent(db, l, a);
    FinaliseKeys(db.logs, db.inputs, spent);
    if log in db.logs {
      FinaliseAt(db.logs, db.inputs, spent, log);
    }
  }
}
