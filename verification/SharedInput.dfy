/**
 One wallet in which two pending transactions share an input: when the first lands, the second succeeds too
 and its other coin is lost.
 */
module SharedInput {
  import opened Schema
  import opened Ledger
  import opened Scan
  import opened Logging
  import opened Refinement
  import opened Coins
  import Queries
  import Removal

  const PAYER: AccountId := 1
  const FIRST: LogId := 8
  const SECOND: LogId := 9

  const SHARED := TxOut(6, 60, PAYER, Amount(5, 0), SpendKey(PAYER, 0))
  const OTHER := TxOut(7, 70, PAYER, Amount(3, 0), SpendKey(PAYER, 0))

  /** Both coins are created in block 0, and the shared one is spent in block 1. */
  const LEDGER: Chain := [Block([SHARED, OTHER], []), Block([], [ImageOf(SHARED)])]

  const ADDRESSES := map[SpendKey(PAYER, 0) := Subaddress(PAYER, 0)]

  const PENDING := Log(PAYER, 0, 0, Some(0), Some(5), None, "", [], false)

  /** The first transaction spends the shared coin, the second one both. */
  const WALLET := World(
    Db(map[PAYER := Account(0, 1, false, false, false)], ADDRESSES,
       map[SHARED.id := ReceivedRow(ADDRESSES, PAYER, true, 0, SHARED, None), OTHER.id := ReceivedRow(ADDRESSES, PAYER, true, 0, OTHER, None)],
       map[FIRST := PENDING, SECOND := PENDING], {(FIRST, SHARED.id), (SECOND, SHARED.id), (SECOND, OTHER.id)}, map[], {}, {}),
    LEDGER, 1, {})

  lemma LedgerIsValid()
    ensures Valid(LEDGER)
    ensures forall i, o :: Has(LEDGER, i, o) <==> i == 0 && (o == SHARED || o == OTHER)
    ensures forall b, k :: Lands(LEDGER, b, k) <==> b == 1 && k == ImageOf(SHARED)
  {
    assert LEDGER[0].outputs == [SHARED, OTHER] && LEDGER[1].outputs == [];
    assert LEDGER[0].keyImages == [] && LEDGER[1].keyImages == [ImageOf(SHARED)];
    assert forall i, o :: Has(LEDGER, i, o) <==> i == 0 && (o == SHARED || o == OTHER);
    assert forall b, k :: Lands(LEDGER, b, k) <==> b == 1 && k == ImageOf(SHARED);
    hide Has, Lands;
  }

  lemma WalletIsReachable()
    ensures Inv(WALLET, PAYER) && LinksOk(WALLET.db, PAYER) && Removal.FkValid(WALLET.db)
  {
    LedgerIsValid();
    hide Has, Lands, Valid;
    assert Mine(WALLET, PAYER, 0, SHARED) && Mine(WALLET, PAYER, 0, OTHER);
    assert RowOk(WALLET, PAYER, 0, SHARED) && RowOk(WALLET, PAYER, 0, OTHER);
    assert Origin(WALLET, PAYER, PAYER, SHARED.id) && Origin(WALLET, PAYER, PAYER, OTHER.id);
  }

  /** The scan leaves the second transaction Succeeded, and its other coin unspent and in none of the five lists. */
  lemma OtherCoinIsLost()
    ensures var v, scope := SyncStep(WALLET, PAYER, PAYER), Queries.Scope(Some(PAYER), None);
      && SECOND in v.db.logs && Status(v.db.logs[SECOND]) == Succeeded
      && OTHER.id in v.db.txos && Queries.Live(v.db.txos[OTHER.id]) && OTHER.id in Queries.AllListed(v.db, scope, 0)
      && OTHER.id !in Queries.Unspent(v.db, scope, 0) && OTHER.id !in Queries.Pending(v.db, scope, 0)
      && OTHER.id !in Queries.Spent(v.db, scope, 0) && OTHER.id !in Queries.Unverified(v.db, scope, 0)
      && OTHER.id !in Queries.Orphaned(v.db, scope, 0)
  {
    LedgerIsValid();
    WalletIsReachable();
    hide Has, Lands, Valid, Inv, LinksOk, Removal.FkValid;
    assert |LEDGER| == 2 && InChunk(WALLET.db, LEDGER, PAYER, 1);
    SharedInputLosesACoin(WALLET, PAYER, SECOND, SHARED.id, OTHER.id, 1);
    var v := SyncStep(WALLET, PAYER, PAYER);
    SyncSelf(WALLET, PAYER);
    hide SyncStep;
    assert Queries.Listed(v.db, OTHER.id, Queries.Scope(Some(PAYER), None), 0);
    OvertakenCoinIsLost(v, PAYER, OTHER.id, Queries.Scope(Some(PAYER), None), 0);
  }
}
