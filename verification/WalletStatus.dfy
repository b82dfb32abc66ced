/** The wallet overview: balances per token added up over the accounts. */
module WalletStatus {
  import opened Schema
  import opened Queries
  import opened Balances
  import CoinSelection

  datatype Status = Status(balances: map<u64, Balance>, minSynced: nat, accounts: seq<AccountId>)

  const WALLET := Scope(None, None)

  function OfAccount(a: AccountId): Scope {
    Scope(Some(a), None)
  }

  predicate OwnedBy(db: Db, id: TxoId, done: set<AccountId>) {
    id in db.txos && db.txos[id].account.Some? && db.txos[id].account.value in done
  }

  function Owned(db: Db, ids: set<TxoId>, done: set<AccountId>): set<TxoId> {
    set id | id in ids && OwnedBy(db, id, done)
  }

  /** The tokens an account has a txo of. */
  function TokenIds(db: Db, a: AccountId): set<u64> {
    set id | id in db.txos && db.txos[id].account == Some(a) :: AsU64(db.txos[id].token)
  }

  /** One of the accounts has a txo of the token. */
  ghost predicate Held(db: Db, done: set<AccountId>, token: u64) {
    exists id :: OwnedBy(db, id, done) && AsU64(db.txos[id].token) == token
  }

  lemma HeldByOne(db: Db, a: AccountId, token: u64)
    ensures token in TokenIds(db, a) <==> Held(db, {a}, token)
  {
    if Held(db, {a}, token) {
      var id :| OwnedBy(db, id, {a}) && AsU64(db.txos[id].token) == token;
      assert id in db.txos && db.txos[id].account == Some(a);
    }
    if token in TokenIds(db, a) {
      var id :| id in db.txos && db.txos[id].account == Some(a) && AsU64(db.txos[id].token) == token;
      assert OwnedBy(db, id, {a});
    }
  }

  lemma HeldBySome(db: Db, done: set<AccountId>, a: AccountId, token: u64)
    ensures Held(db, done + {a}, token) <==> Held(db, done, token) || token in TokenIds(db, a)
  {
    HeldByOne(db, a, token);
    hide TokenIds;
    forall id
      ensures OwnedBy(db, id, done + {a}) <==> OwnedBy(db, id, done) || OwnedBy(db, id, {a})
    {
    }
  }

  /** Every sum but the spendable amount ranges over the txos of all the accounts. */
  ghost predicate Adds(b: Balance, db: Db, done: set<AccountId>, token: u64) {
    && b.unspent == Total(db.txos, Owned(db, Unspent(db, WALLET, token), done))
    && b.spent == Total(db.txos, Owned(db, Spent(db, WALLET, token), done))
    && b.pending == Total(db.txos, Owned(db, Pending(db, WALLET, token), done))
    && b.unverified == Total(db.txos, Owned(db, Unverified(db, WALLET, token), done))
    && b.orphaned == Total(db.txos, Owned(db, Orphaned(db, WALLET, token), done))
  }

  ghost predicate MostOf(m: nat, db: Db, a: AccountId, token: u64, fee: u64) {
    QueriesReturnRows(db, OfAccount(a), token);
    CoinSelection.IsMaxSpendable(m, CoinsOf(db.txos, Spendable(db, OfAccount(a), token)), CoinSelection.MAX_INPUTS, fee)
  }

  function FeeOf(fees: map<u64, u64>, token: u64): u64 {
    if token in fees then fees[token] else 0
  }

  ghost function SetOf(order: seq<AccountId>): set<AccountId> {
    set a | a in order
  }

  /** The first account in `order` that has a txo of the token. */
  function FirstHolder(db: Db, order: seq<AccountId>, token: u64): Option<AccountId> {
    if order == [] then None
    else
      var r, last := FirstHolder(db, order[..|order| - 1], token), order[|order| - 1];
      if r.Some? then r else if token in TokenIds(db, last) then Some(last) else None
  }

  /** The entry of a token: there if an account holds it, with the sums of them all and the spendable amount of the first. */
  ghost predicate Entry(m: map<u64, Balance>, db: Db, fees: map<u64, u64>, done: seq<AccountId>, token: u64) {
    var first := FirstHolder(db, done, token);
    && (token in m <==> first.Some?)
    && (token in m ==> Adds(m[token], db, SetOf(done), token))
    && (token in m ==> MostOf(m[token].maxSpendable, db, first.value, token, if token in fees then fees[token] else 0))
  }

  lemma {:induction false} FirstHolderHolds(db: Db, order: seq<AccountId>, token: u64)
    ensures FirstHolder(db, order, token).Some? <==> Held(db, SetOf(order), token)
  {
    hide TokenIds;
    if order != [] {
      var init, last := order[..|order| - 1], order[|order| - 1];
      FirstHolderHolds(db, init, token);
      assert order == init + [last];
      assert SetOf(order) == SetOf(init) + {last};
      HeldBySome(db, SetOf(init), last, token);
    }
  }

  lemma {:induction false} NobodyHolds(db: Db, order: seq<AccountId>, token: u64)
    requires forall a :: a in order ==> token !in TokenIds(db, a)
    ensures FirstHolder(db, order, token).None?
  {
    hide TokenIds;
    if order != [] {
      NobodyHolds(db, order[..|order| - 1], token);
    }
  }

  lemma {:induction false} FirstHolderIsFirst(db: Db, order: seq<AccountId>, token: u64, i: nat)
    requires i < |order| && token in TokenIds(db, order[i]) && forall j :: 0 <= j < i ==> token !in TokenIds(db, order[j])
    ensures FirstHolder(db, order, token) == Some(order[i])
  {
    hide TokenIds;
    var init := order[..|order| - 1];
    if i < |init| {
      FirstHolderIsFirst(db, init, token, i);
    } else {
      NobodyHolds(db, init, token);
    }
  }

  lemma EntryIfHeld(m: map<u64, Balance>, db: Db, fees: map<u64, u64>, order: seq<AccountId>, token: u64)
    requires Entry(m, db, fees, order, token)
    ensures token in m <==> Held(db, SetOf(order), token)
  {
    hide Adds, MostOf, FirstHolder, Held;
    FirstHolderHolds(db, order, token);
  }

  lemma NextInLine(db: Db, done: seq<AccountId>, a: AccountId, token: u64)
    ensures SetOf(done + [a]) == SetOf(done) + {a}
    ensures var r := FirstHolder(db, done, token);
      FirstHolder(db, done + [a], token) == if r.Some? then r else if token in TokenIds(db, a) then Some(a) else None
  {
    assert (done + [a])[..|done|] == done;
  }

  /** Add the sums of another account; the spendable amount stays that of the first. */
  function Merge(m: map<u64, Balance>, token: u64, b: Balance): map<u64, Balance> {
    if token !in m then m[token := b] else
      var c := m[token];
      m[token := Balance(c.maxSpendable, c.unverified + b.unverified, c.unspent + b.unspent, c.pending + b.pending,
                         c.spent + b.spent, c.orphaned + b.orphaned)]
  }

  lemma OneMore(db: Db, q: set<TxoId>, mine: set<TxoId>, done: set<AccountId>, a: AccountId)
    requires a !in done && q <= db.txos.Keys
    requires forall id :: id in mine <==> id in q && db.txos[id].account == Some(a)
    ensures Total(db.txos, Owned(db, q, done + {a})) == Total(db.txos, Owned(db, q, done)) + Total(db.txos, mine)
  {
    assert Owned(db, q, done + {a}) == Owned(db, q, done) + mine;
    TotalUnion(db.txos, Owned(db, q, done), mine);
  }

  /** An account's queries are the wallet's restricted to its txos. */
  lemma Restricted(db: Db, a: AccountId, token: u64, id: TxoId)
    requires id in db.txos
    ensures id in Unspent(db, OfAccount(a), token) <==> id in Unspent(db, WALLET, token) && db.txos[id].account == Some(a)
    ensures id in Spent(db, OfAccount(a), token) <==> id in Spent(db, WALLET, token) && db.txos[id].account == Some(a)
    ensures id in Pending(db, OfAccount(a), token) <==> id in Pending(db, WALLET, token) && db.txos[id].account == Some(a)
    ensures id in Unverified(db, OfAccount(a), token) <==> id in Unverified(db, WALLET, token) && db.txos[id].account == Some(a)
    ensures id in Orphaned(db, OfAccount(a), token) <==> id in Orphaned(db, WALLET, token) && db.txos[id].account == Some(a)
    ensures id in AllListed(db, OfAccount(a), token) <==> id in AllListed(db, WALLET, token) && db.txos[id].account == Some(a)
  {
    hide Free, InFlight;
    assert InScope(db.txos[id], OfAccount(a)) <==> InScope(db.txos[id], WALLET) && db.txos[id].account == Some(a);
  }

  /** One more account adds the totals of its own queries. */
  lemma TotalsGrow(db: Db, done: set<AccountId>, a: AccountId, token: u64)
    requires a !in done
    ensures Total(db.txos, Owned(db, Unspent(db, WALLET, token), done + {a}))
         == Total(db.txos, Owned(db, Unspent(db, WALLET, token), done)) + Total(db.txos, Unspent(db, OfAccount(a), token))
    ensures Total(db.txos, Owned(db, Spent(db, WALLET, token), done + {a}))
         == Total(db.txos, Owned(db, Spent(db, WALLET, token), done)) + Total(db.txos, Spent(db, OfAccount(a), token))
    ensures Total(db.txos, Owned(db, Pending(db, WALLET, token), done + {a}))
         == Total(db.txos, Owned(db, Pending(db, WALLET, token), done)) + Total(db.txos, Pending(db, OfAccount(a), token))
    ensures Total(db.txos, Owned(db, Unverified(db, WALLET, token), done + {a}))
         == Total(db.txos, Owned(db, Unverified(db, WALLET, token), done)) + Total(db.txos, Unverified(db, OfAccount(a), token))
    ensures Total(db.txos, Owned(db, Orphaned(db, WALLET, token), done + {a}))
         == Total(db.txos, Owned(db, Orphaned(db, WALLET, token), done)) + Total(db.txos, Orphaned(db, OfAccount(a), token))
    ensures Total(db.txos, Owned(db, AllListed(db, WALLET, token), done + {a}))
         == Total(db.txos, Owned(db, AllListed(db, WALLET, token), done)) + Total(db.txos, AllListed(db, OfAccount(a), token))
  {
    QueriesReturnRows(db, OfAccount(a), token);
    QueriesReturnRows(db, WALLET, token);
    forall id | id in db.txos
      ensures id in Unspent(db, OfAccount(a), token) <==> id in Unspent(db, WALLET, token) && db.txos[id].account == Some(a)
      ensures id in Spent(db, OfAccount(a), token) <==> id in Spent(db, WALLET, token) && db.txos[id].account == Some(a)
      ensures id in Pending(db, OfAccount(a), token) <==> id in Pending(db, WALLET, token) && db.txos[id].account == Some(a)
      ensures id in Unverified(db, OfAccount(a), token) <==> id in Unverified(db, WALLET, token) && db.txos[id].account == Some(a)
      ensures id in Orphaned(db, OfAccount(a), token) <==> id in Orphaned(db, WALLET, token) && db.txos[id].account == Some(a)
      ensures id in AllListed(db, OfAccount(a), token) <==> id in AllListed(db, WALLET, token) && db.txos[id].account == Some(a)
    {
      Restricted(db, a, token, id);
    }
    hide Unspent, Spent, Pending, Unverified, Orphaned, Owned, Total;
    OneMore(db, Unspent(db, WALLET, token), Unspent(db, OfAccount(a), token), done, a);
    OneMore(db, Spent(db, WALLET, token), Spent(db, OfAccount(a), token), done, a);
    OneMore(db, Pending(db, WALLET, token), Pending(db, OfAccount(a), token), done, a);
    OneMore(db, Unverified(db, WALLET, token), Unverified(db, OfAccount(a), token), done, a);
    OneMore(db, Orphaned(db, WALLET, token), Orphaned(db, OfAccount(a), token), done, a);
    OneMore(db, AllListed(db, WALLET, token), AllListed(db, OfAccount(a), token), done, a);
  }

  lemma AddAccount(b: Balance, c: Balance, db: Db, done: set<AccountId>, a: AccountId, token: u64, fee: u64, r: Balance)
    requires Adds(c, db, done, token) && IsBalance(b, db, OfAccount(a), token, fee) && a !in done
    requires r.unspent == c.unspent + b.unspent && r.spent == c.spent + b.spent && r.pending == c.pending + b.pending
    requires r.unverified == c.unverified + b.unverified && r.orphaned == c.orphaned + b.orphaned
    ensures Adds(r, db, done + {a}, token)
  {
    hide Unspent, Spent, Pending, Unverified, Orphaned, Spendable, Owned, Total, AllListed, CoinSelection.IsMaxSpendable;
    TotalsGrow(db, done, a, token);
  }

  lemma NothingOwned(db: Db, q: set<TxoId>, done: set<AccountId>, token: u64)
    requires !Held(db, done, token)
    requires forall id :: id in q ==> Listed(db, id, WALLET, token)
    ensures Total(db.txos, Owned(db, q, done)) == 0
  {
    assert forall id :: id in q && OwnedBy(db, id, done) ==> AsU64(db.txos[id].token) == token;
    assert Owned(db, q, done) == {};
  }

  lemma AddsNothing(db: Db, done: set<AccountId>, token: u64)
    requires !Held(db, done, token)
    ensures Adds(Balance(0, 0, 0, 0, 0, 0), db, done, token)
  {
    hide Free, InFlight, Total, Owned, Held, Listed;
    NothingOwned(db, Unspent(db, WALLET, token), done, token);
    NothingOwned(db, Spent(db, WALLET, token), done, token);
    NothingOwned(db, Pending(db, WALLET, token), done, token);
    NothingOwned(db, Unverified(db, WALLET, token), done, token);
    NothingOwned(db, Orphaned(db, WALLET, token), done, token);
  }

  /** Merging an account's balance brings the entry of its token up to date. */
  lemma MergeEntry(m: map<u64, Balance>, db: Db, fees: map<u64, u64>, done: seq<AccountId>, token: u64, a: AccountId, b: Balance)
    requires Entry(m, db, fees, done, token) && token in TokenIds(db, a) && a !in done
    requires IsBalance(b, db, OfAccount(a), token, FeeOf(fees, token))
    ensures Entry(Merge(m, token, b), db, fees, done + [a], token)
  {
    NextInLine(db, done, a, token);
    FirstHolderHolds(db, done, token);
    hide Adds, TokenIds, IsBalance, MostOf, FirstHolder, Held;
    var r := Merge(m, token, b)[token];
    if token in m {
      AddAccount(b, m[token], db, SetOf(done), a, token, FeeOf(fees, token), r);
    } else {
      AddsNothing(db, SetOf(done), token);
      AddAccount(b, Balance(0, 0, 0, 0, 0, 0), db, SetOf(done), a, token, FeeOf(fees, token), r);
      BalanceMost(b, db, a, token, FeeOf(fees, token));
    }
  }

  lemma BalanceMost(b: Balance, db: Db, a: AccountId, token: u64, fee: u64)
    requires IsBalance(b, db, OfAccount(a), token, fee)
    ensures MostOf(b.maxSpendable, db, a, token, fee)
  {
  }

  lemma SkipAdds(b: Balance, db: Db, done: set<AccountId>, token: u64, a: AccountId)
    requires Adds(b, db, done, token) && token !in TokenIds(db, a)
    ensures Adds(b, db, done + {a}, token)
  {
    forall q: set<TxoId> | forall id :: id in q ==> Listed(db, id, WALLET, token)
      ensures Owned(db, q, done + {a}) == Owned(db, q, done)
    {
      assert forall id :: id in q && db.txos[id].account == Some(a) ==> token in TokenIds(db, a);
    }
    hide Free, InFlight, TokenIds, Owned;
    assert Owned(db, Unspent(db, WALLET, token), done + {a}) == Owned(db, Unspent(db, WALLET, token), done);
    assert Owned(db, Spent(db, WALLET, token), done + {a}) == Owned(db, Spent(db, WALLET, token), done);
    assert Owned(db, Pending(db, WALLET, token), done + {a}) == Owned(db, Pending(db, WALLET, token), done);
    assert Owned(db, Unverified(db, WALLET, token), done + {a}) == Owned(db, Unverified(db, WALLET, token), done);
    assert Owned(db, Orphaned(db, WALLET, token), done + {a}) == Owned(db, Orphaned(db, WALLET, token), done);
  }

  /** An account without the token leaves its entry up to date. */
  lemma SkipEntry(m: map<u64, Balance>, db: Db, fees: map<u64, u64>, done: seq<AccountId>, token: u64, a: AccountId)
    requires Entry(m, db, fees, done, token) && token !in TokenIds(db, a)
    ensures Entry(m, db, fees, done + [a], token)
  {
    NextInLine(db, done, a, token);
    hide Adds, TokenIds, MostOf, FirstHolder;
    if token in m {
      SkipAdds(m[token], db, SetOf(done), token, a);
    }
  }

  lemma OtherEntry(m: map<u64, Balance>, db: Db, fees: map<u64, u64>, done: seq<AccountId>, other: u64, token: u64, b: Balance)
    requires Entry(m, db, fees, done, other) && other != token
    ensures Entry(Merge(m, token, b), db, fees, done, other)
  {
    hide Adds, TokenIds, MostOf, FirstHolder;
    assert other in Merge(m, token, b) ==> Merge(m, token, b)[other] == m[other];
  }

  // ----- How far the wallet is synced -----

  /** One less, but not below zero. */
  function Before(n: nat): nat {
    if n == 0 then 0 else n - 1
  }

  /** The least last block among the network's and those the accounts have scanned. */
  ghost predicate IsMinOver(m: nat, db: Db, networkHeight: nat, done: set<AccountId>)
    requires done <= db.accounts.Keys
  {
    && (if networkHeight == 0 then m == 0 else m < networkHeight)
    && (forall a :: a in done ==> if db.accounts[a].nextBlock == 0 then m == 0 else m < db.accounts[a].nextBlock)
    && (m == 0 || m + 1 == networkHeight || exists a :: a in done && m + 1 == db.accounts[a].nextBlock)
    && (m == 0 ==> networkHeight <= 1 || exists a :: a in done && db.accounts[a].nextBlock <= 1)
  }

  ghost predicate IsMinSynced(m: nat, db: Db, networkHeight: nat) {
    IsMinOver(m, db, networkHeight, db.accounts.Keys)
  }

  /** Every account once. */
  ghost predicate Lists(ids: seq<AccountId>, done: set<AccountId>) {
    multiset(ids) == multiset(done)
  }

  lemma Nothing(db: Db, fees: map<u64, u64>, networkHeight: nat)
    ensures forall token :: Entry(map[], db, fees, [], token)
    ensures SetOf([]) == {} && IsMinOver(Before(networkHeight), db, networkHeight, {})
  {
  }

  lemma OneMoreAccount(m: nat, db: Db, networkHeight: nat, done: set<AccountId>, a: AccountId)
    requires done <= db.accounts.Keys && a in db.accounts && IsMinOver(m, db, networkHeight, done)
    ensures IsMinOver(CoinSelection.Min(m, Before(db.accounts[a].nextBlock)), db, networkHeight, done + {a})
  {
    assert a in done + {a};
    assert forall c :: c in done ==> c in done + {a};
  }

  // ----- Conservation over the wallet -----

  lemma NobodyOwns(db: Db)
    ensures forall q :: Owned(db, q, {}) == {}
  {
  }

  ghost function FiveTotals(db: Db, done: set<AccountId>, token: u64): nat {
    Total(db.txos, Owned(db, Unspent(db, WALLET, token), done)) + Total(db.txos, Owned(db, Pending(db, WALLET, token), done))
    + Total(db.txos, Owned(db, Spent(db, WALLET, token), done)) + Total(db.txos, Owned(db, Unverified(db, WALLET, token), done))
    + Total(db.txos, Owned(db, Orphaned(db, WALLET, token), done))
  }

  lemma {:induction false} FiveTotalsConserve(db: Db, done: set<AccountId>, token: u64)
    requires forall a :: a in done ==> Partition(db, OfAccount(a), token)
    ensures FiveTotals(db, done, token) == Total(db.txos, Owned(db, AllListed(db, WALLET, token), done))
    decreases |done|
  {
    hide Unspent, Spent, Pending, Unverified, Orphaned, AllListed, Partition, Owned;
    if done == {} {
      NobodyOwns(db);
    } else {
      hide Total;
      var a :| a in done;
      assert done - {a} + {a} == done;
      FiveTotalsConserve(db, done - {a}, token);
      TotalsGrow(db, done - {a}, a, token);
      PartitionConserves(db, OfAccount(a), token);
    }
  }

  /** When the five lists partition the txos of every account, the wallet's sums add up to all that its accounts own. */
  lemma WalletConserves(b: Balance, db: Db, done: set<AccountId>, token: u64)
    requires Adds(b, db, done, token)
    requires forall a :: a in done ==> Partition(db, OfAccount(a), token)
    ensures b.unspent + b.pending + b.spent + b.unverified + b.orphaned
         == Total(db.txos, Owned(db, AllListed(db, WALLET, token), done))
  {
    hide Unspent, Spent, Pending, Unverified, Orphaned, AllListed, Partition, Owned, Total;
    FiveTotalsConserve(db, done, token);
  }
}
