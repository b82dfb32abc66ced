/** What holds after every run of the wallet. */
module Runs {
  import opened Schema
  import opened Ledger
  import opened Scan
  import opened Logging
  import opened Addresses
  import opened Refinement
  import opened Steps
  import opened Coins
  import opened Lifecycle
  import Integrity
  import Queries
  import Removal

  /** Every step of the run is admissible where it is taken. */
  ghost predicate Admissible(w: World, a: AccountId, steps: seq<Step>)
    decreases |steps|
  {
    steps == [] || (Enabled(w, a, steps[0]) && Admissible(Apply(w, a, steps[0]), a, steps[1..]))
  }

  /** At every moment of the run, the transactions of `a` have spent all of their inputs together or none. */
  ghost predicate TogetherThroughout(w: World, a: AccountId, steps: seq<Step>)
    decreases |steps|
  {
    Together(w.db, w.ledger, a) && (steps == [] || TogetherThroughout(Apply(w, a, steps[0]), a, steps[1..]))
  }

  // ----- A new account -----

  /** Every owned row is an output that its owner can view. */
  ghost predicate HeldByViewers(db: Db, l: Chain) {
    forall id :: id in db.txos && db.txos[id].account.Some? ==>
      exists i, o :: Has(l, i, o) && o.id == id && o.viewer == db.txos[id].account.value
  }

  /** What a new account `a` must find: rows held by accounts that can view them, and no spent row left over from itself. */
  ghost predicate Open(db: Db, l: Chain, a: AccountId) {
    && LinksOk(db, a) && HeldByViewers(db, l)
    && (forall id :: id in db.txos && db.txos[id].account.None? && db.txos[id].spent.Some? ==>
          exists i, o :: Has(l, i, o) && o.id == id && o.viewer != a)
  }

  /** A spent output of `a` is in the table without an owner, as a removal of `a` leaves it when other logs refer to it. */
  ghost predicate LeftBehind(db: Db, l: Chain, a: AccountId) {
    exists i, o :: Has(l, i, o) && o.viewer == a && o.id in db.txos && db.txos[o.id].account.None? && db.txos[o.id].spent.Some?
  }

  /** A new account starts out satisfying every invariant. */
  lemma FreshAccount(l: Chain, db: Db, a: AccountId, first: nat, next: Option<u64>, fog: bool)
    requires Valid(l) && TableOk(db.subaddresses) && Removal.FkValid(db) && a !in db.accounts && Open(db, l, a)
    requires CreateAccount(db, a, first, next, false, fog).error.None?
    ensures var w := World(CreateAccount(db, a, first, next, false, fog).db, l, first, {}); CoinInv(w, a) && Removal.FkValid(w.db)
  {
    Integrity.CreateFk(db, a, first, next, false, fog);
    var n: u64 := if next.Some? then next.value else DEFAULT_NEXT_SUBADDRESS_INDEX;
    InsertAllFrame(db.(accounts := db.accounts[a := Account(first, first, false, fog, false)]), a, InitialIndices(false, fog, n));
    hide InsertSubaddresses;
    FreshInv(World(CreateAccount(db, a, first, next, false, fog).db, l, first, {}), db, a);
  }

  lemma FreshInv(w: World, db: Db, a: AccountId)
    requires Valid(w.ledger) && TableOk(w.db.subaddresses) && Removal.FkValid(db) && a !in db.accounts && Open(db, w.ledger, a)
    requires w.db == db.(accounts := w.db.accounts, subaddresses := w.db.subaddresses) && w.repaired == {}
    requires a in w.db.accounts && !w.db.accounts[a].viewOnly
    requires w.db.accounts[a].firstBlock == w.db.accounts[a].nextBlock == w.seen
    ensures CoinInv(w, a)
  {
    assert forall id :: id in db.txos ==> db.txos[id].account != Some(a);
    assert forall x :: x in db.logs ==> db.logs[x].account != a;
  }

  /** An account may join a wallet at any moment of another account's run, unless it left spent rows there before. */
  lemma JoiningAccount(w: World, c: AccountId, a: AccountId, first: nat, next: Option<u64>, fog: bool)
    requires Inv(w, c) && LinksOk(w.db, c) && Removal.FkValid(w.db) && a !in w.db.accounts
    requires !LeftBehind(w.db, w.ledger, a)
    requires CreateAccount(w.db, a, first, next, false, fog).error.None?
    ensures CoinInv(World(CreateAccount(w.db, a, first, next, false, fog).db, w.ledger, first, {}), a)
  {
    forall id | id in w.db.txos && w.db.txos[id].account.Some?
      ensures exists i, o :: Has(w.ledger, i, o) && o.id == id && o.viewer == w.db.txos[id].account.value
    {
      assert Origin(w, c, w.db.txos[id].account.value, id);
    }
    assert LinksOk(w.db, a) by {
      assert forall x :: x in w.db.logs ==> w.db.logs[x].account != a;
    }
    FreshAccount(w.ledger, w.db, a, first, next, fog);
  }

  // ----- Rows -----

  lemma StepKeepsInv(w: World, a: AccountId, s: Step)
    requires Inv(w, a) && Removal.FkValid(w.db) && Enabled(w, a, s)
    ensures Inv(Apply(w, a, s), a)
  {
    hide Inv, Removal.FkValid, Recorded, Usable, UsableUnsigned, Logged, LogBuilt, LogSigned, LogSubmitted, SyncStep, AssignStep;
    match s
    case Append(block) => AppendKeepsInv(w, a, block);
    case Sync(c) => if c == a { SyncSelf(w, a); } else { SyncOther(w, a, c); }
    case Build(p, c) => BuiltRecorded(w.db, p, a, c); RecordedKeepsInv(w, LogBuilt(w.db, p, c).db, a, c);
    case Sign(p, comment, c) => SignedRecorded(w.db, p, comment, a, c); RecordedKeepsInv(w, LogSigned(w.db, p, comment, c).db, a, c);
    case Submit(p, at, comment, c) =>
      SubmittedRecorded(w.db, p, at, comment, a, c);
      RecordedKeepsInv(w, LogSubmitted(w.db, p, at, comment, c).db, a, c);
    case Assign(c) => if c == a { AssignSelf(w, a); } else { AssignOther(w, a, c); }
    case Resync(c) => ResyncKeepsInv(w, a, c);
    case Create(c, first, next, viewOnly, fog) => CreateKeepsInv(w, a, c, first, next, viewOnly, fog);
    case Remove(c) => RemoveKeepsInv(w, a, c);
  }

  /** After any admissible run the rows of the account are the ones the scanned blocks dictate. */
  lemma {:induction false} RunKeepsRows(w: World, a: AccountId, steps: seq<Step>)
    requires Inv(w, a) && Removal.FkValid(w.db) && Admissible(w, a, steps)
    ensures Inv(Run(w, a, steps), a) && Removal.FkValid(Run(w, a, steps).db)
    decreases |steps|
  {
    if steps != [] {
      StepKeepsInv(w, a, steps[0]);
      Integrity.StepKeepsForeignKeys(w, a, steps[0]);
      hide Inv, Removal.FkValid, Apply, Enabled;
      RunKeepsRows(Apply(w, a, steps[0]), a, steps[1..]);
    }
  }

  // ----- Scan refinement -----

  /** The block below `n` in which a key image lands. */
  ghost function LandingBelow(l: Chain, k: KeyImage, n: nat): Option<nat> {
    if exists b: nat :: b < n && Lands(l, b, k) then var b: nat :| b < n && Lands(l, b, k); Some(b) else None
  }

  /** The row that the ledger alone dictates for output `o` of block `i`, when blocks below `n` are scanned. */
  ghost function LedgerRow(l: Chain, subs: map<SpendKey, Subaddress>, a: AccountId, n: nat, i: nat, o: TxOut): Txo {
    var known := o.targetKey in subs;
    Txo(Some(a), AsI64(o.amount.value), AsI64(o.amount.token), o.targetKey, o.publicKey,
        if known then Some(subs[o.targetKey].index) else None, if known then Some(KeyImage(o.publicKey, a, o.targetKey.index)) else None,
        Some(i), if known then LandingBelow(l, ImageOf(o), n) else None)
  }

  /** The rows of `a` are exactly those of the outputs it can view in blocks `first` to `n - 1`. */
  ghost predicate RowsAreLedgerRows(txos: map<TxoId, Txo>, l: Chain, subs: map<SpendKey, Subaddress>, a: AccountId, first: nat, n: nat) {
    && (forall i, o :: first <= i < n && Has(l, i, o) && o.viewer == a ==>
          o.id in txos && txos[o.id] == LedgerRow(l, subs, a, n, i, o))
    && (forall id :: id in txos && txos[id].account == Some(a) ==>
          exists i, o :: first <= i < n && Has(l, i, o) && o.viewer == a && o.id == id)
  }

  /** Every output that orphan repair marked spent was in truth spent in the block that created it. */
  ghost predicate SpentWhereCreated(w: World, a: AccountId)
    requires a in w.db.accounts
  {
    forall i, o :: Mine(w, a, i, o) && o.id in w.repaired ==> Lands(w.ledger, i, ImageOf(o))
  }

  /** A scanned output's row is the one the ledger dictates, except that repair calls its own block the spent one. */
  lemma RowUpToRepair(w: World, a: AccountId, i: nat, o: TxOut)
    requires Inv(w, a) && Mine(w, a, i, o)
    ensures o.id in w.db.txos
    ensures var row := LedgerRow(w.ledger, w.db.subaddresses, a, w.seen, i, o);
      w.db.txos[o.id] == if o.id in w.repaired then row.(spent := Some(i)) else row
  {
    assert RowOk(w, a, i, o);
    MyColumns(w, a, i, o);
    if w.db.txos[o.id].spent.Some? && o.id !in w.repaired {
      assert Lands(w.ledger, w.db.txos[o.id].spent.value, ImageOf(o));
    }
  }

  lemma RepairedRowIsRight(w: World, a: AccountId, i: nat, o: TxOut)
    requires Inv(w, a) && Mine(w, a, i, o) && o.id in w.repaired
    ensures o.id in w.db.txos
    ensures w.db.txos[o.id] == LedgerRow(w.ledger, w.db.subaddresses, a, w.seen, i, o) <==> Lands(w.ledger, i, ImageOf(o))
  {
    RowUpToRepair(w, a, i, o);
    assert o.targetKey in w.db.subaddresses;
  }

  /** The rows are the function of the ledger, the addresses and the range exactly when repair never missed the spending block. */
  lemma RowsRefineLedger(w: World, a: AccountId)
    requires Inv(w, a)
    ensures RowsAreLedgerRows(w.db.txos, w.ledger, w.db.subaddresses, a, w.db.accounts[a].firstBlock, w.seen)
       <==> SpentWhereCreated(w, a)
  {
    forall i, o | Mine(w, a, i, o)
      ensures o.id in w.db.txos
      ensures w.db.txos[o.id] == LedgerRow(w.ledger, w.db.subaddresses, a, w.seen, i, o) <==>
        (o.id in w.repaired ==> Lands(w.ledger, i, ImageOf(o)))
    {
      RowUpToRepair(w, a, i, o);
      if o.id in w.repaired {
        RepairedRowIsRight(w, a, i, o);
      }
    }
    forall id | id in w.db.txos && w.db.txos[id].account == Some(a)
      ensures exists i, o :: w.db.accounts[a].firstBlock <= i < w.seen && Has(w.ledger, i, o) && o.viewer == a && o.id == id
    {
      assert Origin(w, a, a, id);
      var i, o :| Has(w.ledger, i, o) && o.id == id && o.viewer == a && Mine(w, a, i, o);
    }
    hide LedgerRow, Inv;
    var l, subs, first := w.ledger, w.db.subaddresses, w.db.accounts[a].firstBlock;
    if RowsAreLedgerRows(w.db.txos, l, subs, a, first, w.seen) {
      forall i, o | Mine(w, a, i, o) && o.id in w.repaired
        ensures Lands(l, i, ImageOf(o))
      {
        assert w.db.txos[o.id] == LedgerRow(l, subs, a, w.seen, i, o);
      }
    }
    if SpentWhereCreated(w, a) {
      forall i, o | first <= i < w.seen && Has(l, i, o) && o.viewer == a
        ensures o.id in w.db.txos && w.db.txos[o.id] == LedgerRow(l, subs, a, w.seen, i, o)
      {
        assert Mine(w, a, i, o);
      }
    }
  }

  lemma {:induction false} NoAssignmentNoRepair(w: World, a: AccountId, steps: seq<Step>)
    requires forall s :: s in steps ==> s != Assign(a)
    ensures Run(w, a, steps).repaired == w.repaired
    decreases |steps|
  {
    if steps != [] {
      assert steps[0] in steps && forall s :: s in steps[1..] ==> s in steps;
      NoAssignmentNoRepair(Apply(w, a, steps[0]), a, steps[1..]);
    }
  }

  /** Recording a transaction touches neither accounts nor subaddresses. */
  lemma RecordKeepsAccounts(w: World, a: AccountId, s: Step)
    requires Enabled(w, a, s) && (s.Build? || s.Sign? || s.Submit?)
    ensures var v := Apply(w, a, s);
      v.seen == w.seen && v.ledger == w.ledger && v.db.accounts == w.db.accounts && v.db.subaddresses == w.db.subaddresses
  {
    hide LogBuilt, LogSigned, LogSubmitted, Usable, UsableUnsigned, Logged;
    match s
    case Build(p, c) => BuiltRecorded(w.db, p, a, c);
    case Sign(p, comment, c) => SignedRecorded(w.db, p, comment, a, c);
    case Submit(p, at, comment, c) => SubmittedRecorded(w.db, p, at, comment, a, c);
  }

  /** Only a resync moves the cursor of the account back. */
  lemma StepMovesCursor(w: World, a: AccountId, s: Step)
    requires Enabled(w, a, s) && a in w.db.accounts && w.db.accounts[a].nextBlock == w.seen && s != Resync(a)
    requires s.Remove? ==> Removal.FkValid(w.db)
    ensures var v := Apply(w, a, s); a in v.db.accounts && v.db.accounts[a].nextBlock == v.seen
  {
    if s.Build? || s.Sign? || s.Submit? {
      hide Apply;
      RecordKeepsAccounts(w, a, s);
    } else if s.Create? {
      CreateTouchesOne(w.db, s.account, s.first, s.next, s.viewOnly, s.fog);
      hide CreateAccount;
    } else if s.Remove? && s.account in w.db.accounts {
      Removal.RemovalIsComplete(w.db, s.account);
      hide Removal.RemoveAccount;
    }
  }

  lemma {:induction false} SeenIsCursor(w: World, a: AccountId, steps: seq<Step>)
    requires Removal.FkValid(w.db) && Admissible(w, a, steps)
    requires a in w.db.accounts && w.db.accounts[a].nextBlock == w.seen && forall s :: s in steps ==> s != Resync(a)
    ensures var v := Run(w, a, steps); a in v.db.accounts && v.db.accounts[a].nextBlock == v.seen
    decreases |steps|
  {
    if steps != [] {
      assert steps[0] in steps && forall s :: s in steps[1..] ==> s in steps;
      StepMovesCursor(w, a, steps[0]);
      Integrity.StepKeepsForeignKeys(w, a, steps[0]);
      hide Apply, Enabled, Removal.FkValid;
      SeenIsCursor(Apply(w, a, steps[0]), a, steps[1..]);
    }
  }

  /**
   Scan refinement: after any admissible run the txo rows of the account equal the declarative
   function of the blocks scanned, however the range was cut into chunks and whatever was appended,
   recorded, resynced or assigned in between, if and only if every output that a later assignment
   repaired was spent in its own block. Without assignments there are no repairs, and without
   resyncs the range ends at the cursor.
   */
  lemma ScanRefinement(w: World, a: AccountId, steps: seq<Step>)
    requires Inv(w, a) && Removal.FkValid(w.db) && Admissible(w, a, steps)
    ensures var v := Run(w, a, steps);
      && a in v.db.accounts
      && (RowsAreLedgerRows(v.db.txos, v.ledger, v.db.subaddresses, a, v.db.accounts[a].firstBlock, v.seen) <==>
            SpentWhereCreated(v, a))
      && (w.repaired == {} && (forall s :: s in steps ==> s != Assign(a)) ==> SpentWhereCreated(v, a))
      && (w.db.accounts[a].nextBlock == w.seen && (forall s :: s in steps ==> s != Resync(a)) ==> v.db.accounts[a].nextBlock == v.seen)
  {
    hide Inv, Removal.FkValid, Admissible, Run;
    RunKeepsRows(w, a, steps);
    InvHasAccount(w, a);
    InvHasAccount(Run(w, a, steps), a);
    RowsRefineLedger(Run(w, a, steps), a);
    if forall s :: s in steps ==> s != Assign(a) {
      NoAssignmentNoRepair(w, a, steps);
    }
    if w.db.accounts[a].nextBlock == w.seen && forall s :: s in steps ==> s != Resync(a) {
      SeenIsCursor(w, a, steps);
    }
  }

  lemma InvHasAccount(w: World, a: AccountId)
    requires Inv(w, a)
    ensures a in w.db.accounts && !w.db.accounts[a].viewOnly
  {
  }

  // ----- Any two histories agree -----

  /** The same ledger, addresses and range. */
  ghost predicate SameView(w: World, v: World, a: AccountId) {
    && w.ledger == v.ledger && SameKeys(w.db.subaddresses, v.db.subaddresses, a) && w.seen == v.seen
    && a in w.db.accounts && a in v.db.accounts && w.db.accounts[a].firstBlock == v.db.accounts[a].firstBlock
  }

  /** The two rows differ at most in which block they call the spent one. */
  predicate SameRow(r: Txo, s: Txo) {
    s == r.(spent := s.spent) && (r.spent.Some? <==> s.spent.Some?)
  }

  ghost predicate SameRows(t: map<TxoId, Txo>, u: map<TxoId, Txo>, a: AccountId) {
    && (forall id :: (id in t && t[id].account == Some(a)) <==> (id in u && u[id].account == Some(a)))
    && (forall id :: id in t && id in u && t[id].account == Some(a) ==> SameRow(t[id], u[id]))
  }

  /** Two histories that reach the tip of the same ledger with the same addresses agree on every row of the account. */
  lemma TipDeterminesRows(w: World, v: World, a: AccountId)
    requires Inv(w, a) && Inv(v, a) && SameView(w, v, a) && w.seen == |w.ledger|
    ensures SameRows(w.db.txos, v.db.txos, a)
  {
    assert forall i, o :: Mine(w, a, i, o) <==> Mine(v, a, i, o);
    forall id
      ensures (id in w.db.txos && w.db.txos[id].account == Some(a)) <==> (id in v.db.txos && v.db.txos[id].account == Some(a))
      ensures id in w.db.txos && id in v.db.txos && w.db.txos[id].account == Some(a) ==> SameRow(w.db.txos[id], v.db.txos[id])
    {
      if id in w.db.txos && w.db.txos[id].account == Some(a) {
        TipDeterminesRow(w, v, a, id);
      }
      if id in v.db.txos && v.db.txos[id].account == Some(a) {
        assert SameView(v, w, a);
        TipDeterminesRow(v, w, a, id);
      }
    }
  }

  lemma TipDeterminesRow(w: World, v: World, a: AccountId, id: TxoId)
    requires Inv(w, a) && Inv(v, a) && SameView(w, v, a) && w.seen == |w.ledger|
    requires id in w.db.txos && w.db.txos[id].account == Some(a)
    ensures id in v.db.txos && v.db.txos[id].account == Some(a) && SameRow(w.db.txos[id], v.db.txos[id])
  {
    assert Origin(w, a, a, id);
    var i, o :| Has(w.ledger, i, o) && o.id == id && o.viewer == a && Mine(w, a, i, o);
    assert Mine(v, a, i, o);
    assert o.targetKey.account == a;
    assert FindSubaddress(w.db.subaddresses, o.targetKey) == FindSubaddress(v.db.subaddresses, o.targetKey);
    SpentAtTip(w, a, i, o);
    SpentAtTip(v, a, i, o);
  }

  /** At the tip an output is marked spent exactly when it is addressed and its key image is in the ledger. */
  lemma SpentAtTip(w: World, a: AccountId, i: nat, o: TxOut)
    requires Inv(w, a) && Mine(w, a, i, o) && w.seen == |w.ledger|
    ensures o.id in w.db.txos
    ensures w.db.txos[o.id].spent.Some? <==> o.targetKey in w.db.subaddresses && InLedger(w.ledger, ImageOf(o))
  {
    if InLedger(w.ledger, ImageOf(o)) {
      var b :| Lands(w.ledger, b, ImageOf(o));
      assert b < w.seen;
    }
  }

  /** Two admissible runs, from whatever states, that end at the same tip with the same addresses leave the same rows. */
  lemma RunsConverge(w: World, v: World, a: AccountId, p: seq<Step>, q: seq<Step>)
    requires Inv(w, a) && Removal.FkValid(w.db) && Admissible(w, a, p)
    requires Inv(v, a) && Removal.FkValid(v.db) && Admissible(v, a, q)
    requires SameView(Run(w, a, p), Run(v, a, q), a) && Run(w, a, p).seen == |Run(w, a, p).ledger|
    ensures SameRows(Run(w, a, p).db.txos, Run(v, a, q).db.txos, a)
  {
    RunKeepsRows(w, a, p);
    RunKeepsRows(v, a, q);
    TipDeterminesRows(Run(w, a, p), Run(v, a, q), a);
  }

  // ----- Assigning before or after scanning -----

  /** Every orphan of the account is in the ledger, so repair never fails. */
  lemma RepairNeverFails(w: World, a: AccountId, n: u64)
    requires Inv(w, a)
    ensures Repairable(w.db.txos, w.ledger, a, n, true)
  {
    forall id | id in w.db.txos && Explained(w.db.txos[id], a, n) ensures !Missing(w.ledger, w.db.txos[id].publicKey) {
      assert Origin(w, a, a, id);
      var i, o :| Has(w.ledger, i, o) && o.id == id && o.viewer == a && Mine(w, a, i, o);
      assert Carries(w.ledger, i, o.publicKey);
    }
  }

  /** Repair calls the output's own block the spent one. */
  lemma RepairWritesOwnBlock(w: World, a: AccountId, id: TxoId)
    requires Inv(w, a) && id in RepairsOf(w.db, w.ledger, a)
    ensures id in AssignStep(w, a, a).db.txos
    ensures AssignStep(w, a, a).db.txos[id].spent == w.db.txos[id].received
  {
    assert Origin(w, a, a, id);
    var i, o :| Has(w.ledger, i, o) && o.id == id && o.viewer == a && Mine(w, a, i, o);
    var b := BlockOf(w.ledger, o.publicKey);
    var p :| p in w.ledger[b].outputs && p.publicKey == o.publicKey;
    assert Has(w.ledger, b, p);
  }

  function Syncs(a: AccountId, k: nat): (r: seq<Step>)
    ensures |r| == k && forall s :: s in r ==> s == Sync(a)
  {
    if k == 0 then [] else [Sync(a)] + Syncs(a, k - 1)
  }

  lemma {:induction false} SyncsKeepAddresses(w: World, a: AccountId, k: nat)
    requires Inv(w, a)
    ensures Admissible(w, a, Syncs(a, k))
    ensures var v := Run(w, a, Syncs(a, k));
      && Inv(v, a) && v.ledger == w.ledger && v.db.subaddresses == w.db.subaddresses
      && v.db.accounts[a].firstBlock == w.db.accounts[a].firstBlock && v.db.accounts[a].fogEnabled == w.db.accounts[a].fogEnabled
      && v.db.accounts[a].viewOnly == w.db.accounts[a].viewOnly
    decreases k
  {
    InvHasAccount(w, a);
    var steps := Syncs(a, k);
    if k == 0 {
      NoSteps(w, a);
    } else {
      assert steps[0] == Sync(a) && steps[1..] == Syncs(a, k - 1);
      FirstSync(w, a, steps);
      SyncSelf(w, a);
      SyncKeepsAccount(w, a);
      hide Inv, SyncStep, Syncs, Run, Admissible;
      SyncsKeepAddresses(SyncStep(w, a, a), a, k - 1);
    }
  }

  lemma NoSteps(w: World, a: AccountId)
    ensures Run(w, a, []) == w && Admissible(w, a, [])
  {
  }

  lemma FirstSync(w: World, a: AccountId, steps: seq<Step>)
    requires steps != [] && steps[0] == Sync(a)
    ensures Run(w, a, steps) == Run(SyncStep(w, a, a), a, steps[1..])
    ensures Admissible(w, a, steps) <==> Admissible(SyncStep(w, a, a), a, steps[1..])
  {
  }

  lemma SyncKeepsAccount(w: World, a: AccountId)
    requires a in w.db.accounts
    ensures var v := SyncStep(w, a, a);
      && v.ledger == w.ledger && v.db.subaddresses == w.db.subaddresses && a in v.db.accounts
      && v.db.accounts[a] == w.db.accounts[a].(nextBlock := v.db.accounts[a].nextBlock)
  {
    hide ChunkReceived, ChunkSpent, MarkSpent, Finalise, FailExpired;
  }

  /**
   Assigning a subaddress before scanning or after it gives every txo of the account the same
   columns and the same spent-or-not answer, once both orders have scanned to the tip.
   */
  lemma AssignCommutesWithScan(w: World, a: AccountId, j: nat, k: nat)
    requires Inv(w, a)
    requires var early, late := Run(AssignStep(w, a, a), a, Syncs(a, j)), AssignStep(Run(w, a, Syncs(a, k)), a, a);
      early.seen == |w.ledger| && late.seen == |w.ledger|
    ensures var early, late := Run(AssignStep(w, a, a), a, Syncs(a, j)), AssignStep(Run(w, a, Syncs(a, k)), a, a);
      SameRows(early.db.txos, late.db.txos, a) && early.db.subaddresses == late.db.subaddresses
  {
    var first, scanned := AssignStep(w, a, a), Run(w, a, Syncs(a, k));
    var early, late := Run(first, a, Syncs(a, j)), AssignStep(scanned, a, a);
    AssignSelf(w, a);
    SyncsKeepAddresses(first, a, j);
    SyncsKeepAddresses(w, a, k);
    AssignSelf(scanned, a);
    AssignSameAddress(w, scanned, a);
    TipDeterminesRows(early, late, a);
  }

  lemma NextIndexSame(db: Db, db': Db, a: AccountId)
    requires db'.subaddresses == db.subaddresses
    ensures NextIndex(db', a) == NextIndex(db, a)
  {
  }

  lemma InsertSame(db: Db, db': Db, a: AccountId, n: u64)
    requires db'.subaddresses == db.subaddresses && a in db.accounts && a in db'.accounts
    ensures var r, r' := InsertSubaddress(db, a, n), InsertSubaddress(db', a, n);
      && r'.error == r.error && r'.db.subaddresses == r.db.subaddresses
      && r.db.accounts == db.accounts && r'.db.accounts == db'.accounts
  {
  }

  lemma AssignSameAddress(w: World, v: World, a: AccountId)
    requires Inv(w, a) && Inv(v, a) && v.db.subaddresses == w.db.subaddresses
    requires v.db.accounts[a].fogEnabled == w.db.accounts[a].fogEnabled
    ensures var x, y := AssignStep(w, a, a), AssignStep(v, a, a);
      x.db.subaddresses == y.db.subaddresses && x.db.accounts == w.db.accounts && y.db.accounts == v.db.accounts
  {
    InvHasAccount(w, a);
    InvHasAccount(v, a);
    NextIndexSame(w.db, v.db, a);
    hide Inv, Repair, Repairable, NextIndex, RepairsOf, InsertSubaddress;
    if NextIndex(w.db, a).Some? {
      InsertSame(w.db, v.db, a, NextIndex(w.db, a).value);
      RepairNeverFails(w, a, NextIndex(w.db, a).value);
      RepairNeverFails(v, a, NextIndex(w.db, a).value);
    }
  }

  // ----- Coins -----

  /** Links stay right under every step; inputs of finalised logs stay spent where pending logs land together. */
  lemma StepKeepsLinks(w: World, a: AccountId, s: Step)
    requires Inv(w, a) && LinksOk(w.db, a) && Removal.FkValid(w.db) && Enabled(w, a, s)
    ensures LinksOk(Apply(w, a, s).db, a)
    ensures FinalOk(w.db, a) && Together(w.db, w.ledger, a) ==> FinalOk(Apply(w, a, s).db, a)
  {
    hide Inv, Recorded, Usable, UsableUnsigned, Logged, LogBuilt, LogSigned, LogSubmitted, CreateNext, ScanChunk, LinksOk, FinalOk,
      Together, CreateAccount, Removal.RemoveAccount, Removal.FkValid;
    match s
    case Append(_) =>
    case Sync(c) =>
      ScanKeepsLinks(w, a, c);
      if FinalOk(w.db, a) && Together(w.db, w.ledger, a) {
        ScanKeepsFinal(w, a, c);
      }
    case Build(p, c) => BuiltRecorded(w.db, p, a, c); RecordKeepsCoins(w.db, LogBuilt(w.db, p, c).db, a, c, w);
    case Sign(p, comment, c) => SignedRecorded(w.db, p, comment, a, c); RecordKeepsCoins(w.db, LogSigned(w.db, p, comment, c).db, a, c, w);
    case Submit(p, at, comment, c) =>
      SubmittedRecorded(w.db, p, at, comment, a, c);
      RecordKeepsCoins(w.db, LogSubmitted(w.db, p, at, comment, c).db, a, c, w);
    case Assign(c) => AssignKeepsCoins(w, a, c);
    case Resync(c) => SameLinks(w.db, ResyncAccount(w.db, c), a);
    case Create(c, first, next, viewOnly, fog) =>
      CreateTouchesAddresses(w.db, c, first, next, viewOnly, fog);
      SameLinks(w.db, Apply(w, a, s).db, a);
    case Remove(c) => RemoveKeepsCoins(w, a, c);
  }

  lemma SameLinks(db: Db, db': Db, a: AccountId)
    requires db'.inputs == db.inputs && db'.logs == db.logs && db'.txos == db.txos
    ensures LinksOk(db', a) <==> LinksOk(db, a)
    ensures FinalOk(db', a) <==> FinalOk(db, a)
  {
  }

  lemma {:induction false} RunKeepsLinks(w: World, a: AccountId, steps: seq<Step>)
    requires Inv(w, a) && LinksOk(w.db, a) && Removal.FkValid(w.db) && Admissible(w, a, steps)
    ensures LinksOk(Run(w, a, steps).db, a)
    decreases |steps|
  {
    if steps != [] {
      StepKeepsInv(w, a, steps[0]);
      StepKeepsLinks(w, a, steps[0]);
      Integrity.StepKeepsForeignKeys(w, a, steps[0]);
      hide Inv, LinksOk, FinalOk, Removal.FkValid, Apply, Enabled, Together;
      RunKeepsLinks(Apply(w, a, steps[0]), a, steps[1..]);
    }
  }

  /** Where pending logs land together at every moment of the run, the inputs of every finalised log are spent at its end. */
  lemma {:induction false} RunKeepsCoins(w: World, a: AccountId, steps: seq<Step>)
    requires CoinInv(w, a) && Removal.FkValid(w.db) && Admissible(w, a, steps) && TogetherThroughout(w, a, steps)
    ensures CoinInv(Run(w, a, steps), a) && Removal.FkValid(Run(w, a, steps).db)
    decreases |steps|
  {
    if steps != [] {
      StepKeepsInv(w, a, steps[0]);
      StepKeepsLinks(w, a, steps[0]);
      Integrity.StepKeepsForeignKeys(w, a, steps[0]);
      hide Inv, LinksOk, FinalOk, Removal.FkValid, Apply, Enabled, Together;
      RunKeepsCoins(Apply(w, a, steps[0]), a, steps[1..]);
    }
  }

  /** No live coin of the account has both a pending log and a failed or unsubmitted one. */
  ghost predicate NoOverlap(db: Db, scope: Queries.Scope, token: u64) {
    forall id :: Queries.Listed(db, id, scope, token) && Queries.Live(db.txos[id]) ==> !(Queries.Free(db, id) && Queries.InFlight(db, id))
  }

  /** Conservation after a run in which pending logs land together: the lists partition exactly when no coin overlaps. */
  lemma RunConserves(w: World, a: AccountId, steps: seq<Step>, scope: Queries.Scope, token: u64)
    requires CoinInv(w, a) && Removal.FkValid(w.db) && Admissible(w, a, steps) && TogetherThroughout(w, a, steps)
    requires scope.account == Some(a) || (scope.address.Some? && scope.address.value.account == a)
    ensures Queries.Partition(Run(w, a, steps).db, scope, token) <==> NoOverlap(Run(w, a, steps).db, scope, token)
  {
    var v := Run(w, a, steps);
    RunKeepsCoins(w, a, steps);
    hide Inv, LinksOk, FinalOk, Admissible, TogetherThroughout, Removal.FkValid, Queries.Free, Queries.InFlight, Queries.Overtaken,
      Queries.Partition, Run;
    BalancesConserve(v, a, scope, token);
    forall id | Queries.Listed(v.db, id, scope, token) && Queries.Live(v.db.txos[id])
      ensures !Queries.Overtaken(v.db, id)
    {
      LiveCoinsAreListed(v, a, id);
    }
  }

  lemma {:induction false} InsertTouchesAddresses(db: Db, c: AccountId, indices: seq<u64>)
    ensures var d := InsertSubaddresses(db, c, indices).db; d == db.(subaddresses := d.subaddresses)
  {
    if indices != [] {
      InsertTouchesAddresses(db, c, indices[..|indices| - 1]);
    }
  }

  lemma CreateTouchesOne(db: Db, c: AccountId, first: nat, next: Option<u64>, viewOnly: bool, fog: bool)
    ensures var r := CreateAccount(db, c, first, next, viewOnly, fog);
      r.error.None? ==> c !in db.accounts && r.db.accounts == db.accounts[c := Account(first, first, viewOnly, fog, false)]
  {
    var n: u64 := if next.Some? then next.value else DEFAULT_NEXT_SUBADDRESS_INDEX;
    InsertTouchesAddresses(db.(accounts := db.accounts[c := Account(first, first, viewOnly, fog, false)]), c,
                           InitialIndices(viewOnly, fog, n));
    hide InsertSubaddresses;
  }

  lemma CreateTouchesAddresses(db: Db, c: AccountId, first: nat, next: Option<u64>, viewOnly: bool, fog: bool)
    ensures var d := CreateAccount(db, c, first, next, viewOnly, fog).db; d == db.(subaddresses := d.subaddresses, accounts := d.accounts)
  {
    var n: u64 := if next.Some? then next.value else DEFAULT_NEXT_SUBADDRESS_INDEX;
    InsertTouchesAddresses(db.(accounts := db.accounts[c := Account(first, first, viewOnly, fog, false)]), c,
                           InitialIndices(viewOnly, fog, n));
    hide InsertSubaddresses;
  }
}
