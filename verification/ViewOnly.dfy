/** Assigning an address to a view-only account commutes with scanning, chunk by chunk and whatever the scans match. */
module ViewOnly {
  import opened Schema
  import opened Ledger
  import opened Scan
  import opened Addresses

  /** The address table with one more row. */
  function WithAddress(subs: map<SpendKey, Subaddress>, a: AccountId, n: u64): map<SpendKey, Subaddress> {
    subs[SpendKey(a, n) := Subaddress(a, AsI64(n))]
  }

  ghost function RepairViewOnly(txos: map<TxoId, Txo>, l: Chain, a: AccountId, n: u64): map<TxoId, Txo> {
    Repair(txos, l, a, n, false)
  }

  /** Receiving with the new address known is receiving without it and repairing the row. */
  lemma ReceiveCommutes(txos: map<TxoId, Txo>, subs: map<SpendKey, Subaddress>, l: Chain, a: AccountId, n: u64, b: nat, o: TxOut)
    requires SpendKey(a, n) !in subs
    ensures Receive(RepairViewOnly(txos, l, a, n), WithAddress(subs, a, n), a, false, b, o)
         == RepairViewOnly(Receive(txos, subs, a, false, b, o), l, a, n)
  {
  }

  lemma {:induction false} ReceiveAllCommutes(txos: map<TxoId, Txo>, subs: map<SpendKey, Subaddress>, l: Chain, a: AccountId, n: u64,
                                              outs: seq<(nat, TxOut)>)
    requires SpendKey(a, n) !in subs
    ensures ReceiveAll(RepairViewOnly(txos, l, a, n), WithAddress(subs, a, n), a, false, outs)
         == RepairViewOnly(ReceiveAll(txos, subs, a, false, outs), l, a, n)
  {
    hide RepairViewOnly, WithAddress, Receive;
    if outs != [] {
      var init, last := outs[..|outs| - 1], outs[|outs| - 1];
      ReceiveAllCommutes(txos, subs, l, a, n, init);
      ReceiveCommutes(ReceiveAll(txos, subs, a, false, init), subs, l, a, n, last.0, last.1);
    }
  }

  lemma {:induction false} MarkCommutes(txos: map<TxoId, Txo>, l: Chain, a: AccountId, n: u64, spent: seq<(nat, TxoId)>)
    ensures MarkSpent(RepairViewOnly(txos, l, a, n), spent) == RepairViewOnly(MarkSpent(txos, spent), l, a, n)
  {
    if spent != [] {
      var init := spent[..|spent| - 1];
      MarkCommutes(txos, l, a, n, init);
    }
  }

  /** The repaired rows have no key image, so the same maps are indices of the watched ones. */
  lemma SameIndex(txos: map<TxoId, Txo>, l: Chain, a: AccountId, n: u64, m: map<KeyImage, TxoId>)
    ensures IsIndex(RepairViewOnly(txos, l, a, n), a, m) <==> IsIndex(txos, a, m)
  {
    var r := RepairViewOnly(txos, l, a, n);
    forall k, id
      ensures Holds(r, a, k, id) <==> Holds(txos, a, k, id)
    {
    }
    hide Holds, RepairViewOnly;
  }

  /** What a successful assignment makes of the database of a view-only account. */
  lemma AssignViewOnly(db: Db, l: Chain, a: AccountId)
    requires a in db.accounts && db.accounts[a].viewOnly && CreateNext(db, l, a).error.None?
    ensures NextIndex(db, a).Some? && SpendKey(a, NextIndex(db, a).value) !in db.subaddresses
    ensures CreateNext(db, l, a).db ==
      db.(subaddresses := WithAddress(db.subaddresses, a, NextIndex(db, a).value),
          txos := RepairViewOnly(db.txos, l, a, NextIndex(db, a).value))
  {
    hide NextIndex;
  }

  /** A scan leaves everything the assignment depends on, so the assignment still succeeds, with the same index. */
  lemma AssignAfterScan(db: Db, l: Chain, a: AccountId, s: Db)
    requires a in db.accounts && db.accounts[a].viewOnly && CreateNext(db, l, a).error.None?
    requires s.subaddresses == db.subaddresses && a in s.accounts
    requires s.accounts[a].viewOnly && s.accounts[a].fogEnabled == db.accounts[a].fogEnabled
    ensures CreateNext(s, l, a).error.None? && NextIndex(s, a) == NextIndex(db, a)
  {
    hide Repair, Indices;
    assert NextIndex(s, a) == NextIndex(db, a);
    hide NextIndex;
    assert Repairable(s.txos, l, a, NextIndex(s, a).value, false);
  }

  lemma ReceivedCommutes(db: Db, l: Chain, a: AccountId)
    requires a in db.accounts && db.accounts[a].viewOnly && db.accounts[a].nextBlock <= |l| && CreateNext(db, l, a).error.None?
    ensures CreateNext(db, l, a).db.accounts == db.accounts && NextIndex(db, a).Some?
    ensures ChunkReceived(CreateNext(db, l, a).db, l, a) == RepairViewOnly(ChunkReceived(db, l, a), l, a, NextIndex(db, a).value)
  {
    AssignViewOnly(db, l, a);
    hide CreateNext, NextIndex, ReceiveAll, RepairViewOnly, WithAddress, Decoded, ChunkOutputs, ChunkEnd;
    var s := db.accounts[a].nextBlock;
    ReceiveAllCommutes(db.txos, db.subaddresses, l, a, NextIndex(db, a).value, Decoded(ChunkOutputs(l, s, ChunkEnd(l, s)), a));
  }

  /**
   Assigning an address to a view-only account and then scanning a chunk gives the same database as scanning first:
   rows, logs, cursor and addresses, for every index the scan may have built, and both orders allow the same indices.
   */
  lemma ViewOnlyAssignCommutes(db: Db, l: Chain, a: AccountId, index: map<KeyImage, TxoId>)
    requires a in db.accounts && db.accounts[a].viewOnly && db.accounts[a].nextBlock < |l| && CreateNext(db, l, a).error.None?
    ensures CreateNext(db, l, a).db.accounts == db.accounts
    ensures IsIndex(ChunkReceived(CreateNext(db, l, a).db, l, a), a, index) <==> IsIndex(ChunkReceived(db, l, a), a, index)
    ensures CreateNext(ScanWith(db, l, a, index), l, a).error.None?
    ensures CreateNext(ScanWith(db, l, a, index), l, a).db == ScanWith(CreateNext(db, l, a).db, l, a, index)
  {
    var s, n := ScanWith(db, l, a, index), NextIndex(db, a).value;
    AssignAfterScan(db, l, a, s);
    ReceivedCommutes(db, l, a);
    AssignViewOnly(db, l, a);
    AssignViewOnly(s, l, a);
    hide CreateNext, NextIndex, ChunkReceived, MarkSpent, RepairViewOnly, WithAddress, Matches, Finalise, FailExpired, ChunkImages, ChunkEnd, IsIndex;
    SameIndex(ChunkReceived(db, l, a), l, a, n, index);
    var from := db.accounts[a].nextBlock;
    MarkCommutes(ChunkReceived(db, l, a), l, a, n, Matches(ChunkImages(l, from, ChunkEnd(l, from)), index));
  }

  // ----- Several chunks -----

  /** Scanning several chunks, each with its index; at the tip nothing changes any more. */
  ghost function ScanChunks(db: Db, l: Chain, a: AccountId, choices: seq<map<KeyImage, TxoId>>): Db
    decreases |choices|
  {
    if choices == [] || a !in db.accounts || db.accounts[a].nextBlock >= |l| then db
    else ScanChunks(ScanWith(db, l, a, choices[0]), l, a, choices[1..])
  }

  /** Each is an index of the rows its chunk has received. */
  ghost predicate Possible(db: Db, l: Chain, a: AccountId, choices: seq<map<KeyImage, TxoId>>)
    decreases |choices|
  {
    choices == [] || a !in db.accounts || db.accounts[a].nextBlock >= |l| ||
    (IsIndex(ChunkReceived(db, l, a), a, choices[0]) && Possible(ScanWith(db, l, a, choices[0]), l, a, choices[1..]))
  }

  /** Over any number of chunks, up to the tip and beyond: the same scans are possible in both orders, and end in the same database. */
  lemma {:induction false} ViewOnlyAssignCommutesToTip(db: Db, l: Chain, a: AccountId, choices: seq<map<KeyImage, TxoId>>)
    requires a in db.accounts && db.accounts[a].viewOnly && CreateNext(db, l, a).error.None?
    ensures Possible(CreateNext(db, l, a).db, l, a, choices) <==> Possible(db, l, a, choices)
    ensures CreateNext(ScanChunks(db, l, a, choices), l, a).error.None?
    ensures CreateNext(ScanChunks(db, l, a, choices), l, a).db == ScanChunks(CreateNext(db, l, a).db, l, a, choices)
    decreases |choices|
  {
    AssignViewOnly(db, l, a);
    hide CreateNext, ChunkReceived, IsIndex;
    if choices != [] && db.accounts[a].nextBlock < |l| {
      ViewOnlyAssignCommutes(db, l, a, choices[0]);
      ViewOnlyAssignCommutesToTip(ScanWith(db, l, a, choices[0]), l, a, choices[1..]);
    }
  }
}
