/**
 The status queries over txos and the balance built from them. A txo joined with several logs
 is listed as soon as one joined row passes the filter.
 */
module Queries {
  import opened Schema
  import Scan

  /** The account and assigned address a query is restricted to. */
  datatype Scope = Scope(account: Option<AccountId>, address: Option<Subaddress>)

  predicate InScope(row: Txo, scope: Scope) {
    && (scope.account.Some? ==> row.account == scope.account)
    && (scope.address.Some? ==> row.account == Some(scope.address.value.account) && row.subaddress == Some(scope.address.value.index))
  }

  predicate Listed(db: Db, id: TxoId, scope: Scope, token: u64) {
    id in db.txos && InScope(db.txos[id], scope) && db.txos[id].token == AsI64(token)
  }

  /** Some joined row has no log, a failed log, or a log that was never submitted. */
  predicate Free(db: Db, id: TxoId) {
    || (forall x :: x in db.inputs ==> x.1 != id)
    || exists x :: x in db.inputs && x.1 == id && (x.0 !in db.logs || db.logs[x.0].failed || db.logs[x.0].submitted.None?)
  }

  /** Some joined log is submitted and undecided. */
  predicate InFlight(db: Db, id: TxoId) {
    exists x :: x in db.inputs && x.1 == id && x.0 in db.logs && Scan.Pending(db.logs[x.0])
  }

  // ----- The queries -----

  function Unspent(db: Db, scope: Scope, token: u64): set<TxoId> {
    set id | id in db.txos && Listed(db, id, scope, token) && Free(db, id)
      && db.txos[id].received.Some? && db.txos[id].keyImage.Some? && db.txos[id].spent.None?
  }

  function Unverified(db: Db, scope: Scope, token: u64): set<TxoId> {
    set id | id in db.txos && Listed(db, id, scope, token) && Free(db, id)
      && db.txos[id].received.Some? && db.txos[id].subaddress.Some? && db.txos[id].keyImage.None?
  }

  function Spent(db: Db, scope: Scope, token: u64): set<TxoId> {
    set id | id in db.txos && Listed(db, id, scope, token) && db.txos[id].spent.Some?
  }

  function Pending(db: Db, scope: Scope, token: u64): set<TxoId> {
    set id | id in db.txos && Listed(db, id, scope, token) && InFlight(db, id)
      && db.txos[id].subaddress.Some? && db.txos[id].spent.None?
  }

  /** Orphans are never listed for an address. */
  function Orphaned(db: Db, scope: Scope, token: u64): set<TxoId> {
    if scope.address.Some? then {}
    else set id | id in db.txos && Listed(db, id, scope, token) && db.txos[id].subaddress.None? && db.txos[id].keyImage.None?
  }

  function Spendable(db: Db, scope: Scope, token: u64): set<TxoId> {
    set id | id in db.txos && Listed(db, id, scope, token) && Free(db, id)
      && db.txos[id].received.Some? && db.txos[id].spent.None? && db.txos[id].subaddress.Some?
  }

  function AllListed(db: Db, scope: Scope, token: u64): set<TxoId> {
    set id | id in db.txos && Listed(db, id, scope, token)
  }

  /** The row is of the account and at the address asked for, and of the token. */
  ghost predicate Asked(row: Txo, scope: Scope, token: u64) {
    && (scope.account.Some? ==> row.account == scope.account)
    && (scope.address.Some? ==> row.account == Some(scope.address.value.account) && row.subaddress == Some(scope.address.value.index))
    && AsU64(row.token) == token
  }

  /** Which rows each query returns, column by column. */
  lemma QueriesExactly(db: Db, scope: Scope, token: u64, id: TxoId)
    requires id in db.txos
    ensures var row := db.txos[id];
      var noLog := forall x :: x in db.inputs ==> x.1 != id;
      var open := exists x :: x in db.inputs && x.1 == id && (x.0 !in db.logs || db.logs[x.0].failed || db.logs[x.0].submitted.None?);
      var pending := exists x ::
        x in db.inputs && x.1 == id && x.0 in db.logs
        && db.logs[x.0].submitted.Some? && !db.logs[x.0].failed && db.logs[x.0].finalized.None?;
      var asked := Asked(row, scope, token);
      && (id in Unspent(db, scope, token) <==>
            asked && (noLog || open) && row.received.Some? && row.keyImage.Some? && row.spent.None?)
      && (id in Unverified(db, scope, token) <==>
            asked && (noLog || open) && row.received.Some? && row.subaddress.Some? && row.keyImage.None?)
      && (id in Spent(db, scope, token) <==> asked && row.spent.Some?)
      && (id in Pending(db, scope, token) <==> asked && pending && row.subaddress.Some? && row.spent.None?)
      && (id in Orphaned(db, scope, token) <==>
            asked && scope.address.None? && row.subaddress.None? && row.keyImage.None?)
      && (id in Spendable(db, scope, token) <==>
            asked && (noLog || open) && row.received.Some? && row.subaddress.Some? && row.spent.None?)
  {
  }

  // ----- Addresses -----

  /** The query of each kind. */
  datatype Kind = UnspentTxos | PendingTxos | SpentTxos | UnverifiedTxos | SpendableTxos

  function Ask(db: Db, kind: Kind, scope: Scope, token: u64): set<TxoId> {
    match kind
    case UnspentTxos => Unspent(db, scope, token)
    case PendingTxos => Pending(db, scope, token)
    case SpentTxos => Spent(db, scope, token)
    case UnverifiedTxos => Unverified(db, scope, token)
    case SpendableTxos => Spendable(db, scope, token)
  }

  /** A query for an address returns exactly what the account's query returns at that index, and never an orphan. */
  lemma AddressQuery(db: Db, kind: Kind, account: Option<AccountId>, at: Subaddress, token: u64)
    requires account.None? || account == Some(at.account)
    ensures Ask(db, kind, Scope(account, Some(at)), token) ==
      set id | id in Ask(db, kind, Scope(Some(at.account), None), token) && id in db.txos && db.txos[id].subaddress == Some(at.index)
    ensures Orphaned(db, Scope(account, Some(at)), token) == {}
  {
    var here, there := Scope(account, Some(at)), Scope(Some(at.account), None);
    forall id
      ensures id in Ask(db, kind, here, token) <==>
        id in Ask(db, kind, there, token) && id in db.txos && db.txos[id].subaddress == Some(at.index)
    {
      if id in db.txos {
        QueriesExactly(db, here, token, id);
        QueriesExactly(db, there, token, id);
      }
    }
  }

  // ----- Sums -----

  function ValueOf(txos: map<TxoId, Txo>, id: TxoId): nat {
    if id in txos then AsU64(txos[id].value) else 0
  }

  ghost function Total(txos: map<TxoId, Txo>, ids: set<TxoId>): nat {
    if ids == {} then 0 else
      var id :| id in ids;
      ValueOf(txos, id) + Total(txos, ids - {id})
  }

  lemma {:induction false} TotalRemove(txos: map<TxoId, Txo>, ids: set<TxoId>, id: TxoId)
    requires id in ids
    ensures Total(txos, ids) == ValueOf(txos, id) + Total(txos, ids - {id})
  {
    var j :| j in ids && Total(txos, ids) == ValueOf(txos, j) + Total(txos, ids - {j});
    if j != id {
      TotalRemove(txos, ids - {j}, id);
      TotalRemove(txos, ids - {id}, j);
      assert ids - {j} - {id} == ids - {id} - {j};
    }
  }

  lemma {:induction false} TotalUnion(txos: map<TxoId, Txo>, xs: set<TxoId>, ys: set<TxoId>)
    requires xs !! ys
    ensures Total(txos, xs + ys) == Total(txos, xs) + Total(txos, ys)
  {
    if ys == {} {
      assert xs + ys == xs;
    } else {
      var id :| id in ys;
      TotalUnion(txos, xs, ys - {id});
      assert xs + ys - {id} == xs + (ys - {id});
      TotalRemove(txos, xs + ys, id);
      TotalRemove(txos, ys, id);
    }
  }

  // ----- Query agreement -----

  /** What the columns of every free, received row in scope must satisfy for the queries to agree. */
  ghost predicate ColumnsAgree(db: Db, scope: Scope, token: u64) {
    forall id :: Listed(db, id, scope, token) && Free(db, id) && db.txos[id].received.Some? ==>
      && (db.txos[id].keyImage.Some? && db.txos[id].spent.None? ==> db.txos[id].subaddress.Some?)
      && (db.txos[id].subaddress.Some? && db.txos[id].keyImage.None? ==> db.txos[id].spent.None?)
  }

  /** The spendable query returns exactly the unspent and unverified txos, which never overlap, if and only if the columns agree. */
  lemma QueriesAgree(db: Db, scope: Scope, token: u64)
    ensures Unspent(db, scope, token) !! Unverified(db, scope, token)
    ensures Spendable(db, scope, token) == Unspent(db, scope, token) + Unverified(db, scope, token)
       <==> ColumnsAgree(db, scope, token)
  {
    var s, u, v := Spendable(db, scope, token), Unspent(db, scope, token), Unverified(db, scope, token);
    if s == u + v {
      forall id | Listed(db, id, scope, token) && Free(db, id) && db.txos[id].received.Some?
        ensures db.txos[id].keyImage.Some? && db.txos[id].spent.None? ==> db.txos[id].subaddress.Some?
        ensures db.txos[id].subaddress.Some? && db.txos[id].keyImage.None? ==> db.txos[id].spent.None?
      {
        assert id in s <==> id in u || id in v;
      }
    }
  }

  // ----- Partition -----

  /** The shape a scan gives to the row of an account with spend keys. */
  predicate FullRow(row: Txo) {
    row.received.Some? && (row.subaddress.Some? <==> row.keyImage.Some?) && (row.subaddress.None? ==> row.spent.None?)
  }

  ghost predicate FullRows(db: Db, scope: Scope, token: u64) {
    forall id :: Listed(db, id, scope, token) ==> FullRow(db.txos[id])
  }

  /** A coin that can still be spent: addressed and not spent. */
  predicate Live(row: Txo) {
    row.subaddress.Some? && row.spent.None?
  }

  /** Every live coin is either free or in flight, and not both. */
  ghost predicate Classified(db: Db, scope: Scope, token: u64) {
    forall id :: Listed(db, id, scope, token) && Live(db.txos[id]) ==> (Free(db, id) <==> !InFlight(db, id))
  }

  /** Every log of the coin has succeeded, and it has one. */
  ghost predicate Overtaken(db: Db, id: TxoId) {
    && (exists x :: x in db.inputs && x.1 == id)
    && (forall x :: x in db.inputs && x.1 == id ==>
          x.0 in db.logs && db.logs[x.0].submitted.Some? && !db.logs[x.0].failed && db.logs[x.0].finalized.Some?)
  }

  /** A coin is in neither list exactly when all its logs have succeeded. */
  lemma NeitherFreeNorInFlight(db: Db, id: TxoId)
    ensures !Free(db, id) && !InFlight(db, id) <==> Overtaken(db, id)
  {
  }

  ghost predicate Partition(db: Db, scope: Scope, token: u64) {
    var u, p, s, v, o := Unspent(db, scope, token), Pending(db, scope, token), Spent(db, scope, token),
                         Unverified(db, scope, token), Orphaned(db, scope, token);
    && u !! p && u !! s && u !! v && u !! o && p !! s && p !! v && p !! o && s !! v && s !! o && v !! o
    && u + p + s + v + o == AllListed(db, scope, token)
  }

  /** Which lists a txo of a full account is in. */
  lemma Membership(db: Db, scope: Scope, token: u64, id: TxoId)
    requires FullRows(db, scope, token) && Listed(db, id, scope, token)
    ensures id in Unspent(db, scope, token) <==> Live(db.txos[id]) && Free(db, id)
    ensures id in Pending(db, scope, token) <==> Live(db.txos[id]) && InFlight(db, id)
    ensures id in Spent(db, scope, token) <==> db.txos[id].spent.Some?
    ensures id !in Unverified(db, scope, token)
    ensures id in Orphaned(db, scope, token) <==> db.txos[id].subaddress.None?
  {
    hide Free, InFlight;
  }

  /** For a full account the five lists partition its txos exactly when every live coin is free or in flight but not both. */
  lemma PartitionIffClassified(db: Db, scope: Scope, token: u64)
    requires FullRows(db, scope, token)
    ensures Partition(db, scope, token) <==> Classified(db, scope, token)
  {
    var u, p, s, v, o := Unspent(db, scope, token), Pending(db, scope, token), Spent(db, scope, token),
                         Unverified(db, scope, token), Orphaned(db, scope, token);
    forall id | Listed(db, id, scope, token)
      ensures id in u <==> Live(db.txos[id]) && Free(db, id)
      ensures id in p <==> Live(db.txos[id]) && InFlight(db, id)
      ensures id in s <==> db.txos[id].spent.Some?
      ensures id !in v
      ensures id in o <==> db.txos[id].subaddress.None?
    {
      Membership(db, scope, token, id);
    }
    assert forall id :: id in u || id in p || id in s || id in v || id in o || id in AllListed(db, scope, token) ==> Listed(db, id, scope, token);
    hide Unspent, Pending, Spent, Unverified, Orphaned, Free, InFlight, InScope;
    if Partition(db, scope, token) {
      forall id | Listed(db, id, scope, token) && Live(db.txos[id]) ensures Free(db, id) <==> !InFlight(db, id) {
        assert id in AllListed(db, scope, token);
        assert id in u + p + s + v + o;
      }
    }
    if Classified(db, scope, token) {
      forall id | id in AllListed(db, scope, token) ensures id in u + p + s + v + o {
        assert Listed(db, id, scope, token);
      }
      assert u + p + s + v + o == AllListed(db, scope, token);
    }
  }

  /** The shape of any scanned row, of a full or a view-only account: only an addressed one has a key image or a spent block. */
  predicate ScannedRow(row: Txo) {
    row.received.Some? && (row.subaddress.None? ==> row.keyImage.None? && row.spent.None?)
  }

  ghost predicate ScannedRows(db: Db, scope: Scope, token: u64) {
    forall id :: Listed(db, id, scope, token) ==> ScannedRow(db.txos[id])
  }

  /** Every live coin is free or in flight but not both, and no spent one without a key image is free. */
  ghost predicate Sorted(db: Db, scope: Scope, token: u64) {
    && Classified(db, scope, token)
    && forall id :: Listed(db, id, scope, token) && db.txos[id].spent.Some? && db.txos[id].keyImage.None? ==> !Free(db, id)
  }

  /** For a full or view-only account the five lists partition the scanned txos exactly when they are sorted. */
  lemma PartitionIffSorted(db: Db, scope: Scope, token: u64)
    requires ScannedRows(db, scope, token)
    ensures Partition(db, scope, token) <==> Sorted(db, scope, token)
  {
    var u, p, s, v, o := Unspent(db, scope, token), Pending(db, scope, token), Spent(db, scope, token),
                         Unverified(db, scope, token), Orphaned(db, scope, token);
    forall id | Listed(db, id, scope, token)
      ensures id in u <==> Live(db.txos[id]) && Free(db, id) && db.txos[id].keyImage.Some?
      ensures id in p <==> Live(db.txos[id]) && InFlight(db, id)
      ensures id in s <==> db.txos[id].spent.Some?
      ensures id in v <==> db.txos[id].subaddress.Some? && Free(db, id) && db.txos[id].keyImage.None?
      ensures id in o <==> db.txos[id].subaddress.None?
    {
      ScannedMembership(db, scope, token, id);
    }
    assert forall id :: id in u || id in p || id in s || id in v || id in o || id in AllListed(db, scope, token) ==> Listed(db, id, scope, token);
    hide Unspent, Pending, Spent, Unverified, Orphaned, Free, InFlight, InScope;
    if Partition(db, scope, token) {
      forall id | Listed(db, id, scope, token)
        ensures Live(db.txos[id]) ==> (Free(db, id) <==> !InFlight(db, id))
        ensures db.txos[id].spent.Some? && db.txos[id].keyImage.None? ==> !Free(db, id)
      {
        assert id in AllListed(db, scope, token);
        assert id in u + p + s + v + o;
      }
    }
    if Sorted(db, scope, token) {
      forall id | id in AllListed(db, scope, token) ensures id in u + p + s + v + o {
        assert Listed(db, id, scope, token);
      }
      assert u + p + s + v + o == AllListed(db, scope, token);
    }
  }

  lemma ScannedMembership(db: Db, scope: Scope, token: u64, id: TxoId)
    requires ScannedRows(db, scope, token) && Listed(db, id, scope, token)
    ensures id in Unspent(db, scope, token) <==> Live(db.txos[id]) && Free(db, id) && db.txos[id].keyImage.Some?
    ensures id in Pending(db, scope, token) <==> Live(db.txos[id]) && InFlight(db, id)
    ensures id in Spent(db, scope, token) <==> db.txos[id].spent.Some?
    ensures id in Unverified(db, scope, token) <==> db.txos[id].subaddress.Some? && Free(db, id) && db.txos[id].keyImage.None?
    ensures id in Orphaned(db, scope, token) <==> db.txos[id].subaddress.None?
  {
    hide Free, InFlight;
  }

  /** Conservation: the five balances add up to the value of all the txos. */
  lemma PartitionConserves(db: Db, scope: Scope, token: u64)
    requires Partition(db, scope, token)
    ensures Total(db.txos, Unspent(db, scope, token)) + Total(db.txos, Pending(db, scope, token))
          + Total(db.txos, Spent(db, scope, token)) + Total(db.txos, Unverified(db, scope, token))
          + Total(db.txos, Orphaned(db, scope, token)) == Total(db.txos, AllListed(db, scope, token))
  {
    var u, p, s, v, o := Unspent(db, scope, token), Pending(db, scope, token), Spent(db, scope, token),
                         Unverified(db, scope, token), Orphaned(db, scope, token);
    hide Unspent, Pending, Spent, Unverified, Orphaned, AllListed;
    TotalUnion(db.txos, u, p);
    TotalUnion(db.txos, u + p, s);
    TotalUnion(db.txos, u + p + s, v);
    TotalUnion(db.txos, u + p + s + v, o);
  }

  /** A coin with a failed or unsubmitted log and a pending one counts twice, and is still offered for spending. */
  lemma OverlapCountsTwice(db: Db, scope: Scope, token: u64, id: TxoId)
    requires Listed(db, id, scope, token) && FullRow(db.txos[id]) && Live(db.txos[id]) && Free(db, id) && InFlight(db, id)
    ensures id in Unspent(db, scope, token) && id in Pending(db, scope, token) && id in Spendable(db, scope, token)
  {
  }
}
