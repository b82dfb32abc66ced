/** Accounts and their assigned subaddresses: creation, the next index, and repair of orphaned txos. */
module Addresses {
  import opened Schema
  import opened Ledger

  const DEFAULT_SUBADDRESS_INDEX: u64 := 0
  const LEGACY_CHANGE_SUBADDRESS_INDEX: u64 := 1
  const DEFAULT_NEXT_SUBADDRESS_INDEX: u64 := 2
  const CHANGE_SUBADDRESS_INDEX: u64 := 0xFFFF_FFFF_FFFF_FFFE
  const SIGN_BIT: u64 := 0x8000_0000_0000_0000

  /** Subaddress rows record the account and index their spend key was derived from. */
  ghost predicate TableOk(subs: map<SpendKey, Subaddress>) {
    forall k :: k in subs ==> k.index < 0x1_0000_0000_0000_0000 && subs[k] == Subaddress(k.account, AsI64(k.index))
  }

  // ----- Inserting subaddresses -----

  /** The spend key and the pair of account and index both carry a unique index. */
  function InsertSubaddress(db: Db, a: AccountId, index: u64): Outcome {
    var key, row := SpendKey(a, index), Subaddress(a, AsI64(index));
    if a !in db.accounts || key in db.subaddresses || row in db.subaddresses.Values then Outcome(db, Some(ConstraintViolation))
    else Outcome(db.(subaddresses := db.subaddresses[key := row]), None)
  }

  function InsertSubaddresses(db: Db, a: AccountId, indices: seq<u64>): Outcome {
    if indices == [] then Outcome(db, None)
    else
      var r := InsertSubaddresses(db, a, indices[..|indices| - 1]);
      if r.error.Some? then r else InsertSubaddress(r.db, a, indices[|indices| - 1])
  }

  function Range(lo: u64, hi: u64): (r: seq<u64>)
    ensures |r| == (if lo < hi then hi - lo else 0) && forall i :: 0 <= i < |r| ==> r[i] == lo + i
  {
    seq(if lo < hi then hi - lo else 0, i requires 0 <= i < (if lo < hi then hi - lo else 0) => lo + i)
  }

  /** The indices a new account starts with; fog accounts get no more than the main and change addresses. */
  function InitialIndices(viewOnly: bool, fog: bool, next: u64): seq<u64> {
    if fog then [DEFAULT_SUBADDRESS_INDEX, CHANGE_SUBADDRESS_INDEX]
    else
      (if viewOnly then [DEFAULT_SUBADDRESS_INDEX, LEGACY_CHANGE_SUBADDRESS_INDEX, CHANGE_SUBADDRESS_INDEX]
       else [DEFAULT_SUBADDRESS_INDEX, CHANGE_SUBADDRESS_INDEX, LEGACY_CHANGE_SUBADDRESS_INDEX])
      + Range(DEFAULT_NEXT_SUBADDRESS_INDEX, next)
  }

  function CreateAccount(db: Db, a: AccountId, first: nat, next: Option<u64>, viewOnly: bool, fog: bool): Outcome {
    if a in db.accounts then Outcome(db, Some(AccountAlreadyExists))
    else
      var n: u64 := if next.Some? then next.value else DEFAULT_NEXT_SUBADDRESS_INDEX;
      InsertSubaddresses(db.(accounts := db.accounts[a := Account(first, first, viewOnly, fog, false)]), a,
                         InitialIndices(viewOnly, fog, n))
  }

  lemma {:induction false} InsertErrors(db: Db, a: AccountId, indices: seq<u64>)
    ensures var e := InsertSubaddresses(db, a, indices).error; e.None? || e == Some(ConstraintViolation)
  {
    if indices != [] {
      InsertErrors(db, a, indices[..|indices| - 1]);
    }
  }

  // ----- The next index -----

  function Indices(subs: map<SpendKey, Subaddress>, a: AccountId): set<i64> {
    set k | k in subs && subs[k].account == a :: subs[k].index
  }

  ghost predicate IsHighest(h: i64, s: set<i64>) {
    h in s && forall i :: i in s ==> i <= h
  }

  lemma {:induction false} HighestExists(s: set<i64>)
    requires s != {}
    ensures exists h :: IsHighest(h, s)
  {
    var i :| i in s;
    if s != {i} {
      HighestExists(s - {i});
      var h :| IsHighest(h, s - {i});
      forall j | j in s ensures j <= if h < i then i else h {
        assert j == i || j in s - {i};
      }
      assert IsHighest(if h < i then i else h, s);
    } else {
      assert IsHighest(i, s);
    }
  }

  ghost function Highest(s: set<i64>): (h: i64)
    requires s != {}
    ensures IsHighest(h, s)
  {
    HighestExists(s);
    var h :| IsHighest(h, s);
    h
  }

  /** One above the highest index, compared as signed; no index is left above the largest unsigned one. */
  ghost function NextIndex(db: Db, a: AccountId): Option<u64> {
    var s := Indices(db.subaddresses, a);
    if s == {} || Highest(s) == -1 then None else Some(AsU64(Highest(s)) + 1)
  }

  // ----- Orphan repair -----

  predicate Orphaned(row: Txo, a: AccountId) {
    row.account == Some(a) && row.subaddress.None? && row.keyImage.None?
  }

  ghost predicate InLedger(l: Chain, k: KeyImage) {
    exists b :: Lands(l, b, k)
  }

  /** Some output of block `b` has that public key. */
  predicate Carries(l: Chain, b: int, key: PublicKey) {
    0 <= b < |l| && exists o :: o in l[b].outputs && o.publicKey == key
  }

  /** The first of the first `n` blocks with an output of that public key. */
  function FirstBlockWith(l: Chain, key: PublicKey, n: nat): (r: Option<nat>)
    requires n <= |l|
    ensures r.Some? ==> Carries(l, r.value, key) && forall b :: 0 <= b < r.value ==> !Carries(l, b, key)
    ensures r.None? ==> forall b :: 0 <= b < n ==> !Carries(l, b, key)
  {
    if n == 0 then None
    else
      var r := FirstBlockWith(l, key, n - 1);
      if r.Some? then r else if Carries(l, n - 1, key) then Some(n - 1) else None
  }

  predicate Missing(l: Chain, key: PublicKey) {
    FirstBlockWith(l, key, |l|).None?
  }

  function BlockOf(l: Chain, key: PublicKey): (b: nat)
    requires !Missing(l, key)
    ensures Carries(l, b, key) && forall c :: Carries(l, c, key) ==> b <= c
  {
    FirstBlockWith(l, key, |l|).value
  }

  /** The orphans that subaddress `n` of `a` explains. */
  predicate Explained(row: Txo, a: AccountId, n: u64) {
    Orphaned(row, a) && row.targetKey == SpendKey(a, n)
  }

  function ImageFor(row: Txo, a: AccountId, n: u64): KeyImage {
    KeyImage(row.publicKey, a, n)
  }

  /** An orphan that was already spent is marked with the block of the output itself. */
  ghost function RepairedRow(row: Txo, l: Chain, a: AccountId, n: u64, full: bool): Txo
    requires full && InLedger(l, ImageFor(row, a, n)) ==> !Missing(l, row.publicKey)
  {
    if !full then row.(subaddress := Some(AsI64(n)))
    else
      var image := ImageFor(row, a, n);
      row.(subaddress := Some(AsI64(n)), keyImage := Some(image),
           spent := if InLedger(l, image) then Some(BlockOf(l, row.publicKey)) else row.spent)
  }

  ghost predicate Repairable(txos: map<TxoId, Txo>, l: Chain, a: AccountId, n: u64, full: bool) {
    forall id :: id in txos && Explained(txos[id], a, n) && full && InLedger(l, ImageFor(txos[id], a, n))
      ==> !Missing(l, txos[id].publicKey)
  }

  ghost function Repair(txos: map<TxoId, Txo>, l: Chain, a: AccountId, n: u64, full: bool): map<TxoId, Txo>
    requires Repairable(txos, l, a, n, full)
  {
    map id | id in txos :: if Explained(txos[id], a, n) then RepairedRow(txos[id], l, a, n, full) else txos[id]
  }

  /** Assign the next subaddress; the surrounding transaction undoes everything on an error. */
  ghost function CreateNext(db: Db, l: Chain, a: AccountId): Outcome {
    if a !in db.accounts then Outcome(db, Some(AccountNotFound))
    else if db.accounts[a].fogEnabled then Outcome(db, Some(SubaddressesNotSupportedForFog))
    else if NextIndex(db, a).None? then Outcome(db, Some(InvalidArgument))
    else
      var n, full := NextIndex(db, a).value, !db.accounts[a].viewOnly;
      var r := InsertSubaddress(db, a, n);
      if r.error.Some? then Outcome(db, r.error)
      else if !Repairable(db.txos, l, a, n, full) then Outcome(db, Some(TxOutNotFound))
      else Outcome(r.db.(txos := Repair(db.txos, l, a, n, full)), None)
  }

  /**
   What a successful assignment of index n does to the txo table, of a full or a view-only account: every row of the
   account without subaddress and key image that was sent to the new address gets its index, and a full account's row
   also its key image and, if that is in the ledger, as spent block the first with its output; nothing else changes.
   */
  lemma AssignedRows(db: Db, l: Chain, a: AccountId, id: TxoId)
    requires CreateNext(db, l, a).error.None? && id in db.txos
    ensures CreateNext(db, l, a).db.txos.Keys == db.txos.Keys
    ensures var row, row', n := db.txos[id], CreateNext(db, l, a).db.txos[id], NextIndex(db, a).value;
      if row.account == Some(a) && row.subaddress.None? && row.keyImage.None? && row.targetKey == SpendKey(a, n) then
        && row'.subaddress == Some(AsI64(n))
        && (db.accounts[a].viewOnly ==> row' == row.(subaddress := Some(AsI64(n))))
        && (!db.accounts[a].viewOnly ==>
              && row' == row.(subaddress := Some(AsI64(n)), keyImage := Some(KeyImage(row.publicKey, a, n)), spent := row'.spent)
              && ((forall b :: !Lands(l, b, KeyImage(row.publicKey, a, n))) ==> row'.spent == row.spent)
              && ((exists b :: Lands(l, b, KeyImage(row.publicKey, a, n))) ==>
                    && row'.spent.Some? && Carries(l, row'.spent.value, row.publicKey)
                    && forall b :: Carries(l, b, row.publicKey) ==> row'.spent.value <= b))
      else row' == row
  {
  }

  // ----- Gap-free indices -----

  /** The non-negative indices of `a` are exactly 0 to m - 1. */
  ghost predicate GapFree(subs: map<SpendKey, Subaddress>, a: AccountId, m: nat) {
    && TableOk(subs)
    && forall i: i64 :: i in Indices(subs, a) && 0 <= i <==> 0 <= i < m
  }

  lemma InsertAdds(db: Db, a: AccountId, index: u64)
    requires TableOk(db.subaddresses) && a in db.accounts && SpendKey(a, index) !in db.subaddresses
    ensures var r := InsertSubaddress(db, a, index);
      && r.error.None? && TableOk(r.db.subaddresses)
      && r.db.subaddresses == db.subaddresses[SpendKey(a, index) := Subaddress(a, AsI64(index))]
      && Indices(r.db.subaddresses, a) == Indices(db.subaddresses, a) + {AsI64(index)}
      && r.db == db.(subaddresses := r.db.subaddresses)
  {
    var row := Subaddress(a, AsI64(index));
    forall k | k in db.subaddresses ensures db.subaddresses[k] != row {
      assert AsU64(AsI64(k.index)) == k.index && AsU64(AsI64(index)) == index;
    }
    var subs' := db.subaddresses[SpendKey(a, index) := row];
    forall i ensures i in Indices(subs', a) <==> i in Indices(db.subaddresses, a) + {AsI64(index)} {
      if i in Indices(db.subaddresses, a) {
        var k :| k in db.subaddresses && db.subaddresses[k].account == a && db.subaddresses[k].index == i;
        assert k in subs' && subs'[k].index == i;
      }
      assert SpendKey(a, index) in subs';
    }
  }

  /** While fewer than 2^63 indices are in use, the next one is the first unused one. */
  lemma NextIsFirstUnused(db: Db, a: AccountId, m: u64)
    requires GapFree(db.subaddresses, a, m) && 1 <= m <= SIGN_BIT
    ensures NextIndex(db, a) == Some(m)
    ensures m < SIGN_BIT ==> SpendKey(a, m) !in db.subaddresses
  {
    var s := Indices(db.subaddresses, a);
    assert m - 1 in s;
    assert Highest(s) == m - 1;
    assert SpendKey(a, m) in db.subaddresses ==> AsI64(m) in s;
  }

  /** An assignment succeeds exactly when the account takes subaddresses and every spent orphan is found; it leaves no gap. */
  lemma AssignsFirstUnused(db: Db, l: Chain, a: AccountId, m: u64)
    requires GapFree(db.subaddresses, a, m) && 1 <= m < SIGN_BIT
    ensures CreateNext(db, l, a).error.None? <==>
      a in db.accounts && !db.accounts[a].fogEnabled && Repairable(db.txos, l, a, m, !db.accounts[a].viewOnly)
    ensures CreateNext(db, l, a).error == Some(AccountNotFound) <==> a !in db.accounts
    ensures CreateNext(db, l, a).error == Some(SubaddressesNotSupportedForFog) <==> a in db.accounts && db.accounts[a].fogEnabled
    ensures CreateNext(db, l, a).error == Some(TxOutNotFound) <==>
      a in db.accounts && !db.accounts[a].fogEnabled && !Repairable(db.txos, l, a, m, !db.accounts[a].viewOnly)
    ensures CreateNext(db, l, a).error.None? ==>
      && CreateNext(db, l, a).db.subaddresses == db.subaddresses[SpendKey(a, m) := Subaddress(a, m)]
      && SpendKey(a, m) !in db.subaddresses
      && GapFree(CreateNext(db, l, a).db.subaddresses, a, m + 1)
  {
    NextIsFirstUnused(db, a, m);
    if a in db.accounts {
      InsertAdds(db, a, m);
    }
  }

  /** How far the non-negative indices reach after one more assignment: up to the sign bit. */
  function OneMore(m: nat): nat {
    if m < SIGN_BIT then m + 1 else m
  }

  /** A successful assignment keeps the indices free of gaps, even the one that wraps negative. */
  lemma AssignKeepsGapFree(db: Db, l: Chain, a: AccountId, m: nat)
    requires GapFree(db.subaddresses, a, m) && 1 <= m <= SIGN_BIT && CreateNext(db, l, a).error.None?
    ensures GapFree(CreateNext(db, l, a).db.subaddresses, a, OneMore(m))
  {
    if m < SIGN_BIT {
      AssignsFirstUnused(db, l, a, m);
    } else {
      NextIsFirstUnused(db, a, m);
      InsertAdds(db, a, m);
      hide Repair, Repairable;
    }
  }

  /** The subaddresses of other accounts do not matter. */
  lemma SameKeysGapFree(subs: map<SpendKey, Subaddress>, subs': map<SpendKey, Subaddress>, a: AccountId, m: nat)
    requires GapFree(subs, a, m) && TableOk(subs') && forall k: SpendKey :: k.account == a ==> (k in subs <==> k in subs')
    ensures GapFree(subs', a, m)
  {
    assert Indices(subs', a) == Indices(subs, a) by {
      forall i
        ensures i in Indices(subs', a) <==> i in Indices(subs, a)
      {
        if i in Indices(subs, a) {
          var k :| k in subs && subs[k].account == a && subs[k].index == i;
          assert k in subs' && subs'[k] == subs[k];
        }
        if i in Indices(subs', a) {
          var k :| k in subs' && subs'[k].account == a && subs'[k].index == i;
          assert k in subs && subs[k] == subs'[k];
        }
      }
    }
  }

  /** At 2^63 indices the next one wraps negative: it is handed out once, and every later assignment fails. */
  lemma SignBitStopsAssignment(db: Db, l: Chain, a: AccountId)
    requires GapFree(db.subaddresses, a, SIGN_BIT) && a in db.accounts && !db.accounts[a].fogEnabled
    ensures SpendKey(a, SIGN_BIT) in db.subaddresses ==> CreateNext(db, l, a).error == Some(ConstraintViolation)
    ensures SpendKey(a, SIGN_BIT) !in db.subaddresses && CreateNext(db, l, a).error.None? ==>
      CreateNext(CreateNext(db, l, a).db, l, a).error == Some(ConstraintViolation)
  {
    NextIsFirstUnused(db, a, SIGN_BIT);
    if SpendKey(a, SIGN_BIT) !in db.subaddresses {
      InsertAdds(db, a, SIGN_BIT);
      if CreateNext(db, l, a).error.None? {
        NextIsFirstUnused(CreateNext(db, l, a).db, a, SIGN_BIT);
      }
    }
  }

  // ----- New accounts -----

  function Stored(indices: seq<u64>): set<i64> {
    set i | 0 <= i < |indices| :: AsI64(indices[i])
  }

  ghost predicate Distinct(indices: seq<u64>) {
    forall i, j :: 0 <= i < j < |indices| ==> indices[i] != indices[j]
  }

  /** Inserting succeeds exactly when no index repeats. */
  lemma {:induction false} InsertAllAdds(db: Db, a: AccountId, indices: seq<u64>)
    requires TableOk(db.subaddresses) && a in db.accounts
    requires forall k :: k in db.subaddresses ==> k.account != a
    ensures var r := InsertSubaddresses(db, a, indices);
      && (r.error.None? <==> Distinct(indices))
      && r.db == db.(subaddresses := r.db.subaddresses)
      && TableOk(r.db.subaddresses)
      && (r.error.None? ==>
            && Indices(r.db.subaddresses, a) == Stored(indices)
            && (forall i: u64 :: SpendKey(a, i) in r.db.subaddresses <==> i in indices))
  {
    if indices != [] {
      var init, last := indices[..|indices| - 1], indices[|indices| - 1];
      InsertAllAdds(db, a, init);
      assert indices == init + [last];
      var r := InsertSubaddresses(db, a, init);
      if r.error.None? {
        if SpendKey(a, last) !in r.db.subaddresses {
          InsertAdds(r.db, a, last);
          assert Stored(indices) == Stored(init) + {AsI64(last)};
        }
      }
    }
  }

  /** Inserting for one account leaves the subaddresses of every other account alone. */
  lemma {:induction false} InsertAllFrame(db: Db, a: AccountId, indices: seq<u64>)
    requires TableOk(db.subaddresses)
    ensures var r := InsertSubaddresses(db, a, indices);
      && r.db == db.(subaddresses := r.db.subaddresses) && TableOk(r.db.subaddresses)
      && (forall k :: k in db.subaddresses ==> k in r.db.subaddresses && r.db.subaddresses[k] == db.subaddresses[k])
      && (forall k :: k in r.db.subaddresses && k.account != a ==> k in db.subaddresses)
  {
    if indices != [] {
      InsertAllFrame(db, a, indices[..|indices| - 1]);
    }
  }

  lemma InitialIndicesDistinct(viewOnly: bool, next: u64)
    ensures Distinct(InitialIndices(viewOnly, false, next)) <==> next <= CHANGE_SUBADDRESS_INDEX
  {
    var s := InitialIndices(viewOnly, false, next);
    if next > CHANGE_SUBADDRESS_INDEX {
      var j := 3 + CHANGE_SUBADDRESS_INDEX - DEFAULT_NEXT_SUBADDRESS_INDEX;
      var i := if viewOnly then 2 else 1;
      assert s[i] == s[j] == CHANGE_SUBADDRESS_INDEX;
    }
  }

  /**
   A new account without fog can be created exactly when the requested next index leaves the
   change index free; its indices then have no gap, and the change index, stored negative,
   never counts as the highest.
   */
  lemma StartsGapFree(db: Db, a: AccountId, first: nat, next: Option<u64>, viewOnly: bool)
    requires TableOk(db.subaddresses) && a !in db.accounts
    requires forall k :: k in db.subaddresses ==> k.account != a
    ensures var n := if next.Some? then next.value else DEFAULT_NEXT_SUBADDRESS_INDEX;
      var m := if n < 2 then 2 else if n < SIGN_BIT then n else SIGN_BIT;
      var r := CreateAccount(db, a, first, next, viewOnly, false);
      && (r.error.None? <==> n <= CHANGE_SUBADDRESS_INDEX)
      && (r.error.None? ==> GapFree(r.db.subaddresses, a, m) && SpendKey(a, 0xFFFF_FFFF_FFFF_FFFE) in r.db.subaddresses)
      && (r.error.None? ==>
            r.db == db.(accounts := db.accounts[a := Account(first, first, viewOnly, false, false)], subaddresses := r.db.subaddresses))
  {
    var n: u64 := if next.Some? then next.value else DEFAULT_NEXT_SUBADDRESS_INDEX;
    var m := if n < 2 then 2 else if n < SIGN_BIT then n else SIGN_BIT;
    var s := InitialIndices(viewOnly, false, n);
    InitialIndicesDistinct(viewOnly, n);
    InsertAllAdds(db.(accounts := db.accounts[a := Account(first, first, viewOnly, false, false)]), a, s);
    StoredInitial(viewOnly, n, m);
  }

  lemma StoredInitial(viewOnly: bool, n: u64, m: nat)
    requires m == if n < 2 then 2 else if n < SIGN_BIT then n else SIGN_BIT
    ensures CHANGE_SUBADDRESS_INDEX in InitialIndices(viewOnly, false, n)
    ensures forall i: i64 :: i in Stored(InitialIndices(viewOnly, false, n)) && 0 <= i <==> 0 <= i < m
  {
    var s := InitialIndices(viewOnly, false, n);
    assert s[if viewOnly then 2 else 1] == CHANGE_SUBADDRESS_INDEX;
    forall i: i64 | 0 <= i < m ensures i in Stored(s) {
      var j := if i == 0 then 0 else if i == 1 then (if viewOnly then 1 else 2) else i + 1;
      assert s[j] == i && AsI64(s[j]) == i;
    }
  }

  /** A fog account always gets its addresses, and they are the main and the change address and no other. */
  lemma FogStartsWithTwo(db: Db, a: AccountId, first: nat, next: Option<u64>, viewOnly: bool)
    requires TableOk(db.subaddresses) && a !in db.accounts
    requires forall k :: k in db.subaddresses ==> k.account != a
    ensures var r := CreateAccount(db, a, first, next, viewOnly, true);
      && r.error.None?
      && (forall i: u64 :: SpendKey(a, i) in r.db.subaddresses <==> i == 0 || i == 0xFFFF_FFFF_FFFF_FFFE)
      && Indices(r.db.subaddresses, a) == {0, -2}
      && r.db == db.(accounts := db.accounts[a := Account(first, first, viewOnly, true, false)], subaddresses := r.db.subaddresses)
  {
    var s := InitialIndices(viewOnly, true, if next.Some? then next.value else DEFAULT_NEXT_SUBADDRESS_INDEX);
    InsertAllAdds(db.(accounts := db.accounts[a := Account(first, first, viewOnly, true, false)]), a, s);
    assert Stored(s) == {0, -2} by {
      assert s[0] == 0 && AsI64(s[1]) == -2;
    }
  }
}
