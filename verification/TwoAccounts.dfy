/**
 One wallet and one ledger in which the order of two syncs decides the verdict: a transaction that lands
 in time fails when another account scans first, and succeeds when its own account does.
 */
module TwoAccounts {
  import opened Schema
  import opened Ledger
  import opened Scan
  import opened Logging
  import opened Refinement
  import opened Steps
  import opened Coins
  import opened Lifecycle
  import opened Runs
  import opened Verdicts
  import opened VerdictRuns
  import Removal

  const PAYER: AccountId := 1
  const BYSTANDER: AccountId := 2
  const TRANSACTION: LogId := 9

  const COIN := TxOut(7, 70, PAYER, Amount(5, 0), SpendKey(PAYER, 0))

  /** The coin is created in block 0 and spent in block 1, which is also the tombstone. */
  const LEDGER: Chain := [Block([COIN], []), Block([], [ImageOf(COIN)]), Block([], [])]

  const ADDRESSES := map[SpendKey(PAYER, 0) := Subaddress(PAYER, 0)]

  /** Both accounts have scanned block 0, and the transaction is pending. */
  const WALLET := World(
    Db(map[PAYER := Account(0, 1, false, false, false), BYSTANDER := Account(0, 1, false, false, false)], ADDRESSES,
       map[COIN.id := ReceivedRow(ADDRESSES, PAYER, true, 0, COIN, None)],
       map[TRANSACTION := Log(PAYER, 0, 0, Some(0), Some(1), None, "", [], false)], {(TRANSACTION, COIN.id)}, map[], {}, {}),
    LEDGER, 1, {})

  lemma LedgerIsValid()
    ensures Valid(LEDGER)
    ensures forall i, o :: Has(LEDGER, i, o) <==> i == 0 && o == COIN
    ensures forall b, k :: Lands(LEDGER, b, k) <==> b == 1 && k == ImageOf(COIN)
  {
    assert LEDGER[0].outputs == [COIN] && LEDGER[1].outputs == [] && LEDGER[2].outputs == [];
    assert LEDGER[0].keyImages == [] && LEDGER[1].keyImages == [ImageOf(COIN)] && LEDGER[2].keyImages == [];
    assert forall i, o :: Has(LEDGER, i, o) <==> i == 0 && o == COIN;
    assert forall b, k :: Lands(LEDGER, b, k) <==> b == 1 && k == ImageOf(COIN);
    hide Has, Lands;
  }

  lemma WalletIsReachable()
    ensures Inv(WALLET, PAYER) && LinksOk(WALLET.db, PAYER) && Removal.FkValid(WALLET.db)
  {
    LedgerIsValid();
    hide Has, Lands, Valid;
    assert Mine(WALLET, PAYER, 0, COIN);
    assert RowOk(WALLET, PAYER, 0, COIN);
    assert Origin(WALLET, PAYER, PAYER, COIN.id);
  }

  lemma ImagesOfCoin()
    ensures OpenImages(WALLET.db, TRANSACTION) == {ImageOf(COIN)}
  {
    assert OpenInputs(WALLET.db, TRANSACTION) == {COIN.id} by {
      assert (TRANSACTION, COIN.id) in WALLET.db.inputs;
    }
  }

  /** Any run of syncs can be traced, and nothing lands late in it. */
  lemma RunIsTraced(steps: seq<Step>)
    requires forall s :: s in steps ==> s.Sync?
    ensures Traced(WALLET, PAYER, steps, TRANSACTION) && forall s :: s in steps ==> LeavesTombstone(s, TRANSACTION)
    ensures InTime(Run(WALLET, PAYER, steps).ledger, OpenImages(WALLET.db, TRANSACTION), 1)
  {
    WalletIsReachable();
    ImagesOfCoin();
    LedgerIsValid();
    hide Inv, LinksOk, Removal.FkValid, Valid, Has, Lands, OpenImages;
    SyncsAreAdmissible(WALLET, steps);
  }

  lemma {:induction false} SyncsAreAdmissible(w: World, steps: seq<Step>)
    requires forall s :: s in steps ==> s.Sync?
    ensures Admissible(w, PAYER, steps) && Run(w, PAYER, steps).ledger == w.ledger
    decreases |steps|
  {
    if steps != [] {
      assert steps[0] in steps && forall s :: s in steps[1..] ==> s in steps;
      SyncsAreAdmissible(Apply(w, PAYER, steps[0]), steps[1..]);
    }
  }

  /** A sync of the payer takes it to the tip; one of the bystander leaves its cursor alone. */
  lemma CursorAfter(w: World, c: AccountId)
    requires w.ledger == LEDGER && PAYER in w.db.accounts && w.db.accounts[PAYER].nextBlock == w.seen <= 3
    ensures var v := Apply(w, PAYER, Sync(c));
      && v.ledger == LEDGER && PAYER in v.db.accounts
      && v.db.accounts[PAYER].nextBlock == v.seen == if c == PAYER then 3 else w.seen
  {
    assert |LEDGER| == 3;
    hide MarkSpent, ReceiveAll, Finalise, FailExpired, UnspentIndex, Matches;
  }

  /** Scanned by its own account, the transaction has landed and succeeded. */
  lemma PayerFirst()
    ensures var v := Run(WALLET, PAYER, [Sync(PAYER)]);
      && v.seen == 3 && v.ledger == LEDGER && TRANSACTION in v.db.logs && Status(v.db.logs[TRANSACTION]) == Succeeded
  {
    var steps := [Sync(PAYER)];
    RunIsTraced(steps);
    CursorAfter(WALLET, PAYER);
    VerdictInTime(WALLET, PAYER, steps, TRANSACTION, 1);
    ImagesOfCoin();
    LedgerIsValid();
    hide Traced, Apply, OpenImages, Valid, Has, Lands;
    var w1 := Apply(WALLET, PAYER, Sync(PAYER));
    assert steps[0] == Sync(PAYER) && steps[1..] == [];
    assert Run(WALLET, PAYER, steps) == Run(w1, PAYER, []) == w1;
    assert Lands(LEDGER, 1, ImageOf(COIN));
    assert !Outrun(w1, PAYER, [], TRANSACTION);
    assert !Outrun(WALLET, PAYER, steps, TRANSACTION);
  }

  lemma RunTwo(w: World, a: AccountId, s: Step, t: Step)
    ensures Run(w, a, [s, t]) == Apply(Apply(w, a, s), a, t) && Run(w, a, [s]) == Apply(w, a, s)
    ensures forall log :: Outrun(w, a, [s, t], log) <==> Outruns(w, a, s, log) || Outruns(Apply(w, a, s), a, t, log)
  {
    assert [s, t][1..] == [t] && [t][1..] == [] && [s][1..] == [];
    hide Apply, Outruns;
    assert Run(w, a, [s, t]) == Run(Apply(w, a, s), a, [t]);
    assert Run(Apply(w, a, s), a, [t]) == Run(Apply(Apply(w, a, s), a, t), a, []);
    assert Run(w, a, [s]) == Run(Apply(w, a, s), a, []);
    forall log
      ensures Outrun(w, a, [s, t], log) <==> Outruns(w, a, s, log) || Outruns(Apply(w, a, s), a, t, log)
    {
      assert Outrun(w, a, [s, t], log) <==> Outruns(w, a, s, log) || Outrun(Apply(w, a, s), a, [t], log);
      assert Outrun(Apply(w, a, s), a, [t], log) <==> Outruns(Apply(w, a, s), a, t, log) || Outrun(Apply(Apply(w, a, s), a, t), a, [], log);
    }
  }

  /** The transaction lands in time and is scanned either way, but it fails when the bystander syncs first. */
  lemma OrderDecides()
    ensures InTime(LEDGER, OpenImages(WALLET.db, TRANSACTION), 1)
    ensures var v := Run(WALLET, PAYER, [Sync(BYSTANDER), Sync(PAYER)]);
      && Landed(v.ledger, OpenImages(WALLET.db, TRANSACTION), v.seen)
      && TRANSACTION in v.db.logs && Status(v.db.logs[TRANSACTION]) == Failed
    ensures var v := Run(WALLET, PAYER, [Sync(PAYER), Sync(BYSTANDER)]);
      && Landed(v.ledger, OpenImages(WALLET.db, TRANSACTION), v.seen)
      && TRANSACTION in v.db.logs && Status(v.db.logs[TRANSACTION]) == Succeeded
  {
    ImagesOfCoin();
    LedgerIsValid();
    hide OpenImages, Valid, Has, Lands, Apply, Traced;
    assert Lands(LEDGER, 1, ImageOf(COIN));
    BystanderFirst();
    PayerThenBystander();
  }

  lemma BystanderFirst()
    ensures var v := Run(WALLET, PAYER, [Sync(BYSTANDER), Sync(PAYER)]);
      && v.ledger == LEDGER && v.seen == 3 && TRANSACTION in v.db.logs && Status(v.db.logs[TRANSACTION]) == Failed
  {
    var steps := [Sync(BYSTANDER), Sync(PAYER)];
    RunIsTraced(steps);
    VerdictInTime(WALLET, PAYER, steps, TRANSACTION, 1);
    RunTwo(WALLET, PAYER, Sync(BYSTANDER), Sync(PAYER));
    CursorAfter(WALLET, BYSTANDER);
    CursorAfter(Apply(WALLET, PAYER, Sync(BYSTANDER)), PAYER);
    hide Traced, Apply, OpenImages, Run, Outrun;
    assert |LEDGER| == 3;
    assert Outruns(WALLET, PAYER, Sync(BYSTANDER), TRANSACTION);
  }

  lemma PayerThenBystander()
    ensures var v := Run(WALLET, PAYER, [Sync(PAYER), Sync(BYSTANDER)]);
      && v.ledger == LEDGER && v.seen == 3 && TRANSACTION in v.db.logs && Status(v.db.logs[TRANSACTION]) == Succeeded
  {
    var steps := [Sync(PAYER), Sync(BYSTANDER)];
    PayerFirst();
    RunIsTraced(steps);
    VerdictInTime(WALLET, PAYER, steps, TRANSACTION, 1);
    RunTwo(WALLET, PAYER, Sync(PAYER), Sync(BYSTANDER));
    CursorAfter(WALLET, PAYER);
    CursorAfter(Apply(WALLET, PAYER, Sync(PAYER)), BYSTANDER);
    ImagesOfCoin();
    LedgerIsValid();
    hide Traced, Apply, OpenImages, Run, Outrun, Valid, Has, Lands;
    assert Lands(LEDGER, 1, ImageOf(COIN));
    assert !Outruns(Apply(WALLET, PAYER, Sync(PAYER)), PAYER, Sync(BYSTANDER), TRANSACTION);
  }
}
