/** Balances: the sums of the status queries and the most that can be spent. */
module Balances {
  import opened Schema
  import opened Queries
  import CoinSelection
  import Coins
  import Refinement
  import Addresses
  import Ledger

  datatype Balance = Balance(maxSpendable: nat, unverified: nat, unspent: nat, pending: nat, spent: nat, orphaned: nat)

  function ScopeOf(db: Db, account: Option<AccountId>, address: Option<SpendKey>): Option<Scope> {
    if address.None? then Some(Scope(account, None))
    else if address.value !in db.subaddresses then None
    else Some(Scope(account, Some(db.subaddresses[address.value])))
  }

  ghost function CoinsOf(txos: map<TxoId, Txo>, ids: set<TxoId>): set<CoinSelection.Coin>
    requires ids <= txos.Keys
  {
    set id | id in ids :: CoinSelection.Coin(id, txos[id].value)
  }

  lemma QueriesReturnRows(db: Db, scope: Scope, token: u64)
    ensures Unspent(db, scope, token) <= db.txos.Keys && Spent(db, scope, token) <= db.txos.Keys
    ensures Pending(db, scope, token) <= db.txos.Keys && Unverified(db, scope, token) <= db.txos.Keys
    ensures Orphaned(db, scope, token) <= db.txos.Keys && Spendable(db, scope, token) <= db.txos.Keys
  {
  }

  /** The balance holds the sums of the five lists and the most that any MAX_INPUTS spendable coins yield after the fee. */
  ghost predicate IsBalance(b: Balance, db: Db, scope: Scope, token: u64, fee: u64) {
    QueriesReturnRows(db, scope, token);
    && b.unspent == Total(db.txos, Unspent(db, scope, token))
    && b.spent == Total(db.txos, Spent(db, scope, token))
    && b.pending == Total(db.txos, Pending(db, scope, token))
    && b.unverified == Total(db.txos, Unverified(db, scope, token))
    && b.orphaned == Total(db.txos, Orphaned(db, scope, token))
    && CoinSelection.IsMaxSpendable(b.maxSpendable, CoinsOf(db.txos, Spendable(db, scope, token)), CoinSelection.MAX_INPUTS, fee)
  }

  /** The coins of the txos that are within the caller's limit. */
  ghost function Offered(txos: map<TxoId, Txo>, ids: set<TxoId>, maxValue: Option<u64>): set<CoinSelection.Coin>
    requires ids <= txos.Keys
  {
    set c | c in CoinsOf(txos, ids) && (maxValue.None? || AsU64(c.value) <= maxValue.value)
  }

  lemma EverythingOffered(txos: map<TxoId, Txo>, ids: set<TxoId>)
    requires ids <= txos.Keys
    ensures Offered(txos, ids, None) == CoinsOf(txos, ids)
  {
  }

  lemma CoinsHold(coins: seq<CoinSelection.Coin>)
    ensures forall c :: c in coins <==> c in CoinSelection.Coins(coins)
  {
  }

  lemma EligibleCoins(found: seq<CoinSelection.Coin>, maxValue: Option<u64>)
    ensures CoinSelection.Coins(CoinSelection.Eligible(found, maxValue)) ==
      set c | c in CoinSelection.Coins(found) && (maxValue.None? || AsU64(c.value) <= maxValue.value)
    ensures CoinSelection.Eligible(found, maxValue) == [] <==> CoinSelection.Coins(CoinSelection.Eligible(found, maxValue)) == {}
  {
    var e := CoinSelection.Eligible(found, maxValue);
    CoinsHold(e);
    CoinsHold(found);
    if e != [] {
      assert e[0] in CoinSelection.Coins(e);
    }
  }

  lemma NothingToPayWith(target: nat)
    ensures target > 0 ==> !CoinSelection.Payable({}, CoinSelection.MAX_INPUTS, target)
  {
  }

  /** Without a limit every coin found is eligible. */
  lemma NoLimit(found: seq<CoinSelection.Coin>)
    ensures CoinSelection.Coins(CoinSelection.Eligible(found, None)) == CoinSelection.Coins(found)
  {
    EligibleCoins(found, None);
  }

  lemma {:induction false} CoinsAddUp(txos: map<TxoId, Txo>, ids: set<TxoId>)
    requires ids <= txos.Keys
    ensures CoinSelection.SumSet(CoinsOf(txos, ids)) == Total(txos, ids)
  {
    if ids == {} {
      assert CoinsOf(txos, ids) == {};
    } else {
      var id :| id in ids;
      var c := CoinSelection.Coin(id, txos[id].value);
      CoinsAddUp(txos, ids - {id});
      assert CoinsOf(txos, ids) - {c} == CoinsOf(txos, ids - {id});
      CoinSelection.SumSetRemove(CoinsOf(txos, ids), c);
      TotalRemove(txos, ids, id);
    }
  }

  lemma {:induction false} SubsetSum(s: set<CoinSelection.Coin>, t: set<CoinSelection.Coin>)
    requires s <= t
    ensures CoinSelection.SumSet(s) <= CoinSelection.SumSet(t)
  {
    if s != {} {
      var c :| c in s;
      SubsetSum(s - {c}, t - {c});
      CoinSelection.SumSetRemove(s, c);
      CoinSelection.SumSetRemove(t, c);
    }
  }

  /** In every reachable state a positive spendable amount plus the fee is covered by the unspent and unverified balances. */
  lemma MaxSpendableIsCovered(w: Refinement.World, a: AccountId, scope: Scope, token: u64, fee: u64, b: Balance)
    requires Refinement.Inv(w, a) && (scope.account == Some(a) || (scope.address.Some? && scope.address.value.account == a))
    requires IsBalance(b, w.db, scope, token, fee)
    ensures b.maxSpendable > 0 ==> b.maxSpendable + fee <= b.unspent + b.unverified
  {
    var u, v := Unspent(w.db, scope, token), Unverified(w.db, scope, token);
    var all := CoinsOf(w.db.txos, Spendable(w.db, scope, token));
    Coins.QueriesAgreeWhenReachable(w, a, scope, token);
    hide Unspent, Unverified, Spendable, Spent, Pending, Orphaned, Refinement.Inv;
    QueriesReturnRows(w.db, scope, token);
    TotalUnion(w.db.txos, u, v);
    CoinsAddUp(w.db.txos, u + v);
    var s :| s <= all && |s| <= CoinSelection.MAX_INPUTS && (if CoinSelection.SumSet(s) > fee then CoinSelection.SumSet(s) - fee else 0) == b.maxSpendable;
    SubsetSum(s, all);
  }

  // ----- The addresses of an account -----

  function AtAddress(a: AccountId, i: i64): Scope {
    Scope(Some(a), Some(Subaddress(a, i)))
  }

  /** The sum of one query over the addresses of `a` with these indices. */
  ghost function OverAddresses(db: Db, kind: Kind, a: AccountId, indices: set<i64>, token: u64): nat {
    if indices == {} then 0 else
      var i :| i in indices;
      Total(db.txos, Ask(db, kind, AtAddress(a, i), token)) + OverAddresses(db, kind, a, indices - {i}, token)
  }

  /** The rows of a query at one of these indices. */
  ghost function PlacedAt(db: Db, ids: set<TxoId>, indices: set<i64>): set<TxoId> {
    set id | id in ids && id in db.txos && db.txos[id].subaddress.Some? && db.txos[id].subaddress.value in indices
  }

  lemma OneMoreAddress(db: Db, ids: set<TxoId>, here: set<TxoId>, indices: set<i64>, i: i64)
    requires i in indices && here == set id | id in ids && id in db.txos && db.txos[id].subaddress == Some(i)
    ensures Total(db.txos, PlacedAt(db, ids, indices)) == Total(db.txos, here) + Total(db.txos, PlacedAt(db, ids, indices - {i}))
  {
    var rest := PlacedAt(db, ids, indices - {i});
    assert PlacedAt(db, ids, indices) == rest + here;
    TotalUnion(db.txos, rest, here);
  }

  /** Adding up a query over several addresses counts every row of the account's query that lies at one of them, once. */
  lemma {:induction false} AddressesAddUp(db: Db, kind: Kind, a: AccountId, indices: set<i64>, token: u64)
    ensures OverAddresses(db, kind, a, indices, token) ==
      Total(db.txos, PlacedAt(db, Ask(db, kind, Scope(Some(a), None), token), indices))
    decreases |indices|
  {
    hide Ask;
    var ids := Ask(db, kind, Scope(Some(a), None), token);
    if indices == {} {
      assert PlacedAt(db, ids, indices) == {};
    } else {
      hide Total, PlacedAt;
      var i :| i in indices && OverAddresses(db, kind, a, indices, token) ==
        Total(db.txos, Ask(db, kind, AtAddress(a, i), token)) + OverAddresses(db, kind, a, indices - {i}, token);
      AddressesAddUp(db, kind, a, indices - {i}, token);
      AddressQuery(db, kind, Some(a), Subaddress(a, i), token);
      OneMoreAddress(db, ids, Ask(db, kind, AtAddress(a, i), token), indices, i);
    }
  }

  /** Every row a query returns lies at an assigned address of the account. */
  ghost predicate Placed(db: Db, kind: Kind, a: AccountId, token: u64) {
    forall id :: id in Ask(db, kind, Scope(Some(a), None), token) ==>
      id in db.txos && db.txos[id].subaddress.Some? && db.txos[id].subaddress.value in Addresses.Indices(db.subaddresses, a)
  }

  /** The account's sum is the sum over its assigned addresses plus the rows at none of them. */
  lemma AccountIsItsAddresses(db: Db, kind: Kind, a: AccountId, token: u64)
    ensures var ids, indices := Ask(db, kind, Scope(Some(a), None), token), Addresses.Indices(db.subaddresses, a);
      Total(db.txos, ids) == OverAddresses(db, kind, a, indices, token) + Total(db.txos, ids - PlacedAt(db, ids, indices))
    ensures Placed(db, kind, a, token) ==>
      Total(db.txos, Ask(db, kind, Scope(Some(a), None), token)) == OverAddresses(db, kind, a, Addresses.Indices(db.subaddresses, a), token)
  {
    hide Ask, Addresses.Indices, OverAddresses;
    var ids, indices := Ask(db, kind, Scope(Some(a), None), token), Addresses.Indices(db.subaddresses, a);
    var placed := PlacedAt(db, ids, indices);
    AddressesAddUp(db, kind, a, indices, token);
    TotalUnion(db.txos, placed, ids - placed);
    assert placed + (ids - placed) == ids;
    if Placed(db, kind, a, token) {
      assert ids - placed == {};
    }
  }

  /** In every reachable state a row with a subaddress lies at an assigned address of the account. */
  lemma RowsArePlaced(w: Refinement.World, a: AccountId, id: TxoId)
    requires Refinement.Inv(w, a) && id in w.db.txos && w.db.txos[id].account == Some(a)
    ensures w.db.txos[id].subaddress.Some? ==> w.db.txos[id].subaddress.value in Addresses.Indices(w.db.subaddresses, a)
    ensures w.db.txos[id].keyImage.Some? || w.db.txos[id].spent.Some? ==> w.db.txos[id].subaddress.Some?
  {
    assert Refinement.Origin(w, a, a, id);
    var i, o :| Ledger.Has(w.ledger, i, o) && o.id == id && o.viewer == a && Refinement.Mine(w, a, i, o);
    assert Refinement.RowOk(w, a, i, o);
    Refinement.MyColumns(w, a, i, o);
    if o.targetKey in w.db.subaddresses {
      assert w.db.subaddresses[o.targetKey] == Subaddress(a, AsI64(o.targetKey.index));
    }
  }

  /**
   In every reachable state the unspent, pending, spent and unverified balances of an account, and what it can
   spend, are the sums over its assigned addresses; only the orphaned balance belongs to none of them.
   */
  lemma AccountBalancesAreItsAddresses(w: Refinement.World, a: AccountId, kind: Kind, token: u64)
    requires Refinement.Inv(w, a)
    ensures Total(w.db.txos, Ask(w.db, kind, Scope(Some(a), None), token)) ==
      OverAddresses(w.db, kind, a, Addresses.Indices(w.db.subaddresses, a), token)
    ensures forall at :: Orphaned(w.db, Scope(Some(a), Some(at)), token) == {}
  {
    hide Refinement.Inv, Addresses.Indices, OverAddresses, Total;
    forall id | id in Ask(w.db, kind, Scope(Some(a), None), token)
      ensures id in w.db.txos && w.db.txos[id].subaddress.Some? && w.db.txos[id].subaddress.value in Addresses.Indices(w.db.subaddresses, a)
    {
      QueriesExactly(w.db, Scope(Some(a), None), token, id);
      RowsArePlaced(w, a, id);
    }
    AccountIsItsAddresses(w.db, kind, a, token);
  }
}
