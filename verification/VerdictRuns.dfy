/** The verdict on a submitted transaction over every admissible run, whichever accounts sync and whatever lands. */
module VerdictRuns {
  import opened Schema
  import opened Ledger
  import opened Scan
  import opened Logging
  import opened Refinement
  import opened Steps
  import opened Coins
  import opened Lifecycle
  import opened Runs
  import opened Verdicts
  import opened Recording
  import opened Addresses
  import AddressRuns
  import Integrity
  import Removal

  /** At some moment of the run the log lapses. */
  ghost predicate Lapsed(w: World, a: AccountId, steps: seq<Step>, log: LogId, images: set<KeyImage>)
    decreases |steps|
  {
    steps != [] && (Lapses(w, a, steps[0], log, images) || Lapsed(Apply(w, a, steps[0]), a, steps[1..], log, images))
  }

  // ----- One step -----

  lemma SyncKeepsDecision(w: World, a: AccountId, c: AccountId, log: LogId, open: set<TxoId>, images: set<KeyImage>, lapsed: bool)
    requires FollowInv(w, a, log, open, images) && Decided(w, log, images, lapsed)
    ensures var v := SyncStep(w, a, c);
      Followed(v, a, log, open, images) && Decided(v, log, images, lapsed || Lapses(w, a, Sync(c), log, images))
  {
    if c != a {
      OtherScanFailsOrLeaves(w, a, c, log, open, images);
      OtherScanKeepsFollowed(w, a, c, log, open, images);
      hide ScanChunk, Inv, LinksOk;
    } else {
      ScanKeepsDecision(w, a, log, open, images, lapsed);
      if w.db.accounts[a].nextBlock < |w.ledger| {
        ScanKeepsFollowed(w, a, log, open, images);
      } else {
        assert SyncStep(w, a, a) == w;
      }
    }
  }

  /** Every step keeps the verdict right, or makes the log lapse. */
  lemma StepKeepsDecision(w: World, a: AccountId, s: Step, log: LogId, open: set<TxoId>, images: set<KeyImage>, lapsed: bool)
    requires FollowInv(w, a, log, open, images) && Decided(w, log, images, lapsed) && Removal.FkValid(w.db) && Enabled(w, a, s)
    ensures var v := Apply(w, a, s);
      FollowInv(v, a, log, open, images) && Decided(v, log, images, lapsed || Lapses(w, a, s, log, images))
  {
    StepKeepsInv(w, a, s);
    StepKeepsLinks(w, a, s);
    var v := Apply(w, a, s);
    hide Inv, LinksOk, ScanChunk, CreateNext, Removal.FkValid, CreateAccount, Removal.RemoveAccount, Enabled, LogBuilt, LogSigned,
      LogSubmitted, Followed, Decided, Unmoved;
    if s.Sync? {
      SyncKeepsDecision(w, a, s.account, log, open, images, lapsed);
    } else if s.Append? {
      AppendKeepsDecision(w, a, s.block, log, open, images, lapsed);
      AppendKeepsFollowed(w, a, s.block, log, open, images);
    } else {
      FollowedLog(w, a, log, open, images);
      OtherStepUnmoved(w, a, s, log);
      UnmovedKeepsDecision(w, v, a, log, open, images, lapsed);
    }
  }

  lemma FollowedLog(w: World, a: AccountId, log: LogId, open: set<TxoId>, images: set<KeyImage>)
    requires Followed(w, a, log, open, images)
    ensures log in w.db.logs && w.db.logs[log].account == a
  {
  }

  lemma AppendKeepsFollowed(w: World, a: AccountId, block: Block, log: LogId, open: set<TxoId>, images: set<KeyImage>)
    requires Followed(w, a, log, open, images)
    ensures Followed(w.(ledger := w.ledger + [block]), a, log, open, images)
  {
  }

  lemma OtherStepUnmoved(w: World, a: AccountId, s: Step, log: LogId)
    requires Inv(w, a) && LinksOk(w.db, a) && Removal.FkValid(w.db) && Enabled(w, a, s)
    requires log in w.db.logs && w.db.logs[log].account == a && !s.Sync? && !s.Append?
    ensures Unmoved(w, Apply(w, a, s), a, log)
  {
    hide Inv, LinksOk, CreateNext, Removal.FkValid, CreateAccount, Removal.RemoveAccount, LogBuilt, LogSigned, LogSubmitted;
    match s
    case Build(_, _) => RecordLeavesLog(w, a, s, log);
    case Sign(_, _, _) => RecordLeavesLog(w, a, s, log);
    case Submit(_, _, _, _) => RecordLeavesLog(w, a, s, log);
    case Assign(c) => AssignUnmoved(w, a, c, log);
    case Resync(_) =>
    case Create(c, first, next, viewOnly, fog) => CreateTouchesAddresses(w.db, c, first, next, viewOnly, fog);
    case Remove(c) => RemoveUnmoved(w, a, c, log);
  }

  // ----- Every run -----

  lemma {:induction false} RunKeepsDecision(w: World, a: AccountId, steps: seq<Step>, log: LogId, open: set<TxoId>, images: set<KeyImage>,
                                            lapsed: bool)
    requires FollowInv(w, a, log, open, images) && Decided(w, log, images, lapsed) && Removal.FkValid(w.db) && Admissible(w, a, steps)
    ensures var v := Run(w, a, steps);
      FollowInv(v, a, log, open, images) && Decided(v, log, images, lapsed || Lapsed(w, a, steps, log, images))
    decreases |steps|
  {
    if steps != [] {
      StepKeepsDecision(w, a, steps[0], log, open, images, lapsed);
      Integrity.StepKeepsForeignKeys(w, a, steps[0]);
      hide Inv, LinksOk, Followed, Decided, Lapses, Removal.FkValid, Apply, Enabled;
      RunKeepsDecision(Apply(w, a, steps[0]), a, steps[1..], log, open, images, lapsed || Lapses(w, a, steps[0], log, images));
    }
  }

  /** A pending log of `a` at the start of an admissible run. */
  ghost predicate Traced(w: World, a: AccountId, steps: seq<Step>, log: LogId) {
    && Inv(w, a) && LinksOk(w.db, a) && Removal.FkValid(w.db) && Admissible(w, a, steps)
    && log in w.db.logs && w.db.logs[log].account == a && Pending(w.db.logs[log])
  }

  /**
   Correct verdict: follow a log from any moment when it is pending, over any admissible run whatever. If at some
   step a chunk passes the tombstone of the still undecided log, and it is a chunk of another account or ends before
   any then unspent input has landed, the log is failed for good. If not, it is Succeeded at the first landing block
   once that block is scanned, and otherwise undecided. Without resyncs, what is scanned is what lies below the cursor.
   */
  lemma CorrectVerdict(w: World, a: AccountId, steps: seq<Step>, log: LogId)
    requires Traced(w, a, steps, log)
    ensures var v := Run(w, a, steps);
      && log in v.db.logs && a in v.db.accounts
      && Decided(v, log, OpenImages(w.db, log), Lapsed(w, a, steps, log, OpenImages(w.db, log)))
      && (w.db.accounts[a].nextBlock == w.seen && (forall s :: s in steps ==> s != Resync(a)) ==> v.db.accounts[a].nextBlock == v.seen)
  {
    VerdictStarts(w, a, log);
    InvHasAccount(w, a);
    hide Inv, LinksOk, Followed, Removal.FkValid, Admissible, Run, Decided, Lapsed;
    var open, images := OpenInputs(w.db, log), OpenImages(w.db, log);
    RunKeepsDecision(w, a, steps, log, open, images, false);
    FollowedLog(Run(w, a, steps), a, log, open, images);
    InvHasAccount(Run(w, a, steps), a);
    if w.db.accounts[a].nextBlock == w.seen && forall s :: s in steps ==> s != Resync(a) {
      SeenIsCursor(w, a, steps);
    }
  }

  /** When a log succeeds and when it fails: it fails if and only if it lapses, and else succeeds with the first scanned landing. */
  lemma VerdictIff(w: World, a: AccountId, steps: seq<Step>, log: LogId)
    requires Traced(w, a, steps, log)
    ensures var v, images := Run(w, a, steps), OpenImages(w.db, log);
      && log in v.db.logs
      && (Status(v.db.logs[log]) == Failed <==> Lapsed(w, a, steps, log, images))
      && (Status(v.db.logs[log]) == Succeeded <==> Landed(v.ledger, images, v.seen) && !Lapsed(w, a, steps, log, images))
  {
    CorrectVerdict(w, a, steps, log);
    hide Traced, Run, Lapsed, Landed, OpenImages;
  }

  /** Recorded when all of its inputs were already spent, a log never succeeds, and fails with its tombstone. */
  lemma LateLogNeverSucceeds(w: World, a: AccountId, steps: seq<Step>, log: LogId)
    requires Traced(w, a, steps, log) && OpenInputs(w.db, log) == {}
    ensures var v := Run(w, a, steps);
      && log in v.db.logs && Status(v.db.logs[log]) != Succeeded
      && (Status(v.db.logs[log]) == Failed <==> Lapsed(w, a, steps, log, {}))
  {
    VerdictIff(w, a, steps, log);
    assert OpenImages(w.db, log) == {};
    hide Traced, Run, Lapsed;
  }

  // ----- By the block of the landing -----

  /** A chunk passes the tombstone of the undecided log, and a chunk of its own account ends at or below block `b`. */
  ghost predicate StopsShort(w: World, a: AccountId, s: Step, log: LogId, b: nat) {
    && s.Sync? && s.account in w.db.accounts && w.db.accounts[s.account].nextBlock < |w.ledger| && log in w.db.logs
    && Expired(w.db.logs[log], ChunkEnd(w.ledger, w.db.accounts[s.account].nextBlock))
    && (s.account == a ==> ChunkEnd(w.ledger, w.db.accounts[a].nextBlock) <= b)
  }

  ghost predicate StoppedShort(w: World, a: AccountId, steps: seq<Step>, log: LogId, b: nat)
    decreases |steps|
  {
    steps != [] && (StopsShort(w, a, steps[0], log, b) || StoppedShort(Apply(w, a, steps[0]), a, steps[1..], log, b))
  }

  lemma {:induction false} LapsedIffStoppedShort(w: World, a: AccountId, steps: seq<Step>, log: LogId, images: set<KeyImage>, b: nat)
    requires FirstLanding(Run(w, a, steps).ledger, images, b)
    ensures Lapsed(w, a, steps, log, images) <==> StoppedShort(w, a, steps, log, b)
    decreases |steps|
  {
    if steps != [] {
      LedgerGrows(w, a, steps);
      PrefixFacts(w.ledger, Run(w, a, steps).ledger);
      var s := steps[0];
      if s == Sync(a) && a in w.db.accounts && w.db.accounts[a].nextBlock < |w.ledger| {
        LandedBelow(w.ledger, Run(w, a, steps).ledger, images, b, ChunkEnd(w.ledger, w.db.accounts[a].nextBlock));
      }
      assert Lapses(w, a, s, log, images) <==> StopsShort(w, a, s, log, b);
      hide Apply, Lapses, StopsShort, FirstLanding;
      LapsedIffStoppedShort(Apply(w, a, s), a, steps[1..], log, images, b);
    }
  }

  /** Within the present ledger, something has landed below `n` exactly when the first landing lies below `n`. */
  lemma LandedBelow(l: Chain, m: Chain, images: set<KeyImage>, b: nat, n: nat)
    requires l <= m && n <= |l| && FirstLanding(m, images, b)
    ensures Landed(l, images, n) <==> b < n
  {
    PrefixFacts(l, m);
    if b < n {
      var k :| k in images && Lands(m, b, k);
      assert Lands(l, b, k);
    }
    if Landed(l, images, n) {
      var c, k :| c < n && k in images && Lands(l, c, k);
      assert Lands(m, c, k);
    }
  }

  /**
   The verdict by the first landing block `b`, before or after the tombstone: the log is Failed if and only if a chunk
   that passed the tombstone was another account's or ended at or below `b`, and is Succeeded if and only if none did
   and `b` has been scanned. So for a late landing it depends on where the chunks end.
   */
  lemma VerdictByLanding(w: World, a: AccountId, steps: seq<Step>, log: LogId, b: nat)
    requires Traced(w, a, steps, log) && FirstLanding(Run(w, a, steps).ledger, OpenImages(w.db, log), b)
    ensures var v := Run(w, a, steps);
      && log in v.db.logs
      && (Status(v.db.logs[log]) == Failed <==> StoppedShort(w, a, steps, log, b))
      && (Status(v.db.logs[log]) == Succeeded <==> b < v.seen && !StoppedShort(w, a, steps, log, b))
  {
    VerdictIff(w, a, steps, log);
    LapsedIffStoppedShort(w, a, steps, log, OpenImages(w.db, log), b);
    LandedSeen(Run(w, a, steps).ledger, OpenImages(w.db, log), b, Run(w, a, steps).seen);
    hide Traced, Run, Lapsed, StoppedShort, FirstLanding, OpenImages;
  }

  lemma LandedSeen(l: Chain, images: set<KeyImage>, b: nat, n: nat)
    requires FirstLanding(l, images, b)
    ensures Landed(l, images, n) <==> b < n
  {
  }

  lemma {:induction false} LedgerGrows(w: World, a: AccountId, steps: seq<Step>)
    ensures w.ledger <= Run(w, a, steps).ledger
    decreases |steps|
  {
    if steps != [] {
      LedgerGrows(Apply(w, a, steps[0]), a, steps[1..]);
    }
  }

  // ----- From the submission on -----

  /** The key images of a proposal's inputs. */
  ghost function ProposedImages(p: Proposal): set<KeyImage> {
    set x | x in p.inputs :: x.keyImage
  }

  /** The inputs of a log that was just submitted are the proposal's, all open and with the proposal's key images. */
  lemma SubmittedInputs(db: Db, d: Db, p: Proposal, log: LogId)
    requires forall x :: x in db.inputs ==> x.0 != log
    requires d.inputs == db.inputs + Links(log, TxOuts(p.inputs)) && ImagesOnRecord(db.txos, d.txos, p.inputs)
    ensures OpenImages(d, log) == ProposedImages(p)
  {
    forall k
      ensures k in OpenImages(d, log) <==> k in ProposedImages(p)
    {
      if k in ProposedImages(p) {
        var x :| x in p.inputs && x.keyImage == k;
        var i :| 0 <= i < |p.inputs| && p.inputs[i] == x;
        assert TxOuts(p.inputs)[i] == x.txOut;
        assert (log, x.txOut.id) in d.inputs;
        assert x.txOut.id in OpenInputs(d, log);
      }
      if k in OpenImages(d, log) {
        var id :| id in OpenInputs(d, log) && id in d.txos && d.txos[id].keyImage == Some(k);
        assert (log, id) in Links(log, TxOuts(p.inputs));
        var i :| 0 <= i < |p.inputs| && TxOuts(p.inputs)[i].id == id;
        assert p.inputs[i] in p.inputs;
      }
    }
  }

  /** The inputs are addressed txos of the account with their key images on record, spent or not. */
  ghost predicate OnRecord(txos: map<TxoId, Txo>, a: AccountId, ins: seq<InputTxo>) {
    forall x :: x in ins && x.txOut.id in txos ==>
      var row := txos[x.txOut.id]; row.account == Some(a) && row.subaddress.Some? && row.keyImage == Some(x.keyImage)
  }

  /** A fresh submission of the account's own inputs keeps its rows right if and only if every input is unspent. */
  lemma SubmissionNeedsUnspent(w: World, a: AccountId, p: Proposal, at: nat, comment: string)
    requires Inv(w, a) && LinksOk(w.db, a) && Removal.FkValid(w.db)
    requires OnRecord(w.db.txos, a, p.inputs) && Recordable(w.db, Unsigned(p), a)
    ensures Inv(Apply(w, a, Submit(p, at, comment, a)), a) <==>
      forall x :: x in p.inputs ==> x.txOut.id in w.db.txos && w.db.txos[x.txOut.id].spent.None?
  {
    var v := Apply(w, a, Submit(p, at, comment, a));
    hide LogSubmitted, Recordable, TransactionId, Inv, LinksOk, Removal.FkValid;
    if Inv(v, a) {
      SpentInputsShow(w, a, p, at, comment);
    }
    if forall x :: x in p.inputs ==> x.txOut.id in w.db.txos && w.db.txos[x.txOut.id].spent.None? {
      assert Usable(w.db.txos, a, a, p.inputs);
      StepKeepsInv(w, a, Submit(p, at, comment, a));
    }
  }

  lemma FkIsReferential(db: Db)
    requires Removal.FkValid(db)
    ensures Referential(db)
  {
  }

  lemma SpentInputsShow(w: World, a: AccountId, p: Proposal, at: nat, comment: string)
    requires Inv(w, a) && Removal.FkValid(w.db) && OnRecord(w.db.txos, a, p.inputs) && Recordable(w.db, Unsigned(p), a)
    requires Inv(Apply(w, a, Submit(p, at, comment, a)), a)
    ensures forall x :: x in p.inputs ==> x.txOut.id in w.db.txos && w.db.txos[x.txOut.id].spent.None?
  {
    var d := LogSubmitted(w.db, p, at, comment, a).db;
    assert Apply(w, a, Submit(p, at, comment, a)) == w.(db := d);
    FkIsReferential(w.db);
    hide Removal.FkValid, Referential, Inv, Recordable, TransactionId, OnRecord, ImagesOnRecord, LogSubmitted, Apply;
    SubmittedAfresh(w.db, p, at, comment, a);
    SubmitTouches(w.db, p, at, comment, a);
    ClearedInputs(w, w.(db := d), a, p.inputs);
  }

  lemma ClearedInputs(w: World, v: World, a: AccountId, ins: seq<InputTxo>)
    requires Inv(w, a) && Inv(v, a) && v.ledger == w.ledger && v.seen == w.seen && v.repaired == w.repaired
    requires v.db.subaddresses == w.db.subaddresses && v.db.accounts == w.db.accounts
    requires OnRecord(w.db.txos, a, ins) && ImagesOnRecord(w.db.txos, v.db.txos, ins)
    ensures forall x :: x in ins ==> x.txOut.id in w.db.txos && w.db.txos[x.txOut.id].spent.None?
  {
    hide Inv;
    forall x | x in ins
      ensures x.txOut.id in w.db.txos && w.db.txos[x.txOut.id].spent.None?
    {
      ClearedRowIsUnspent(w, v, a, x.txOut.id);
    }
  }

  /** A row whose spent block was cleared is right only if it had none. */
  lemma ClearedRowIsUnspent(w: World, v: World, a: AccountId, id: TxoId)
    requires Inv(w, a) && Inv(v, a) && v.ledger == w.ledger && v.seen == w.seen && v.repaired == w.repaired
    requires v.db.subaddresses == w.db.subaddresses && v.db.accounts == w.db.accounts
    requires id in w.db.txos && w.db.txos[id].account == Some(a) && id in v.db.txos && v.db.txos[id].spent.None?
    ensures w.db.txos[id].spent.None?
  {
    assert Origin(w, a, a, id);
    var i, o :| Has(w.ledger, i, o) && o.id == id && o.viewer == a && Mine(w, a, i, o);
    assert Mine(v, a, i, o);
    assert RowOk(w, a, i, o) && RowOk(v, a, i, o);
  }

  lemma SubmitTouches(db: Db, p: Proposal, at: nat, comment: string, a: AccountId)
    ensures var d := LogSubmitted(db, p, at, comment, a).db; d.accounts == db.accounts && d.subaddresses == db.subaddresses
  {
    hide NewLog, TransactionId;
    if TransactionId(p.payload).Some? {
      AddressRuns.NewLogTouches(db, p, Some(at), comment, a, TransactionId(p.payload).value);
    }
  }

  /** A successful submission of usable inputs leaves a pending log whose open key images are the proposal's. */
  lemma SubmissionStarts(w: World, a: AccountId, p: Proposal, at: nat, comment: string)
    requires Inv(w, a) && LinksOk(w.db, a) && Removal.FkValid(w.db)
    requires Usable(w.db.txos, a, a, p.inputs) && Recordable(w.db, Unsigned(p), a)
    ensures var v, log := Apply(w, a, Submit(p, at, comment, a)), TransactionId(p.payload).value;
      && log in v.db.logs && v.db.logs[log].account == a && Pending(v.db.logs[log]) && v.db.logs[log].tombstone == Some(AsI64(p.tombstone))
      && OpenImages(v.db, log) == ProposedImages(p)
      && Inv(v, a) && LinksOk(v.db, a) && Removal.FkValid(v.db) && v.seen == w.seen
  {
    var s := Submit(p, at, comment, a);
    StepKeepsInv(w, a, s);
    StepKeepsLinks(w, a, s);
    Integrity.StepKeepsForeignKeys(w, a, s);
    SubmittedAfresh(w.db, p, at, comment, a);
    hide Inv, LogSubmitted, TransactionId, Recordable, ImagesOnRecord, Links, Usable, OpenImages;
    var log := TransactionId(p.payload).value;
    assert forall x :: x in w.db.inputs ==> x.0 != log;
    hide Removal.FkValid, LinksOk;
    SubmittedInputs(w.db, LogSubmitted(w.db, p, at, comment, a).db, p, log);
  }

  /**
   The fate of a transaction from its submission on: after any admissible run its log is Failed if and only if it has
   lapsed, and Succeeded if and only if it has not and a key image of the proposal has landed and been scanned.
   */
  lemma SubmittedVerdict(w: World, a: AccountId, p: Proposal, at: nat, comment: string, steps: seq<Step>)
    requires Inv(w, a) && LinksOk(w.db, a) && Removal.FkValid(w.db)
    requires Usable(w.db.txos, a, a, p.inputs) && Recordable(w.db, Unsigned(p), a)
    requires Admissible(Apply(w, a, Submit(p, at, comment, a)), a, steps)
    ensures var w1, log := Apply(w, a, Submit(p, at, comment, a)), TransactionId(p.payload).value;
      var v, lapsed := Run(w1, a, steps), Lapsed(w1, a, steps, log, ProposedImages(p));
      && log in v.db.logs
      && (Status(v.db.logs[log]) == Failed <==> lapsed)
      && (Status(v.db.logs[log]) == Succeeded <==> Landed(v.ledger, ProposedImages(p), v.seen) && !lapsed)
  {
    SubmissionStarts(w, a, p, at, comment);
    hide Inv, LinksOk, Removal.FkValid, Usable, Recordable, Apply, Admissible, Run, Lapsed, OpenImages, Landed, TransactionId;
    VerdictIff(Apply(w, a, Submit(p, at, comment, a)), a, steps, TransactionId(p.payload).value);
  }

  // ----- When nothing lands late -----

  /** Another account's chunk ends beyond the tombstone of the still undecided log. */
  ghost predicate Outruns(w: World, a: AccountId, s: Step, log: LogId) {
    && s.Sync? && s.account != a && s.account in w.db.accounts && w.db.accounts[s.account].nextBlock < |w.ledger|
    && log in w.db.logs && Expired(w.db.logs[log], ChunkEnd(w.ledger, w.db.accounts[s.account].nextBlock))
  }

  ghost predicate Outrun(w: World, a: AccountId, steps: seq<Step>, log: LogId)
    decreases |steps|
  {
    steps != [] && (Outruns(w, a, steps[0], log) || Outrun(Apply(w, a, steps[0]), a, steps[1..], log))
  }

  /** A log has lapsed exactly when it was outrun, or nothing has landed and the scan has passed the tombstone. */
  ghost predicate OnTime(w: World, log: LogId, images: set<KeyImage>, tombstone: int, lapsed: bool, outrun: bool) {
    && log in w.db.logs && w.db.logs[log].tombstone == Some(tombstone)
    && (lapsed <==> outrun || (!Landed(w.ledger, images, w.seen) && tombstone < w.seen))
  }

  lemma SelfScanOnTime(w: World, a: AccountId, log: LogId, open: set<TxoId>, images: set<KeyImage>, tombstone: int, lapsed: bool, outrun: bool)
    requires FollowInv(w, a, log, open, images) && Decided(w, log, images, lapsed)
    requires OnTime(w, log, images, tombstone, lapsed, outrun) && InTime(w.ledger, images, tombstone)
    ensures OnTime(SyncStep(w, a, a), log, images, tombstone, lapsed || Lapses(w, a, Sync(a), log, images), outrun)
  {
    if w.db.accounts[a].nextBlock < |w.ledger| {
      ScanLog(w.db, w.ledger, a, log);
      var v, e := SyncStep(w, a, a), ChunkEnd(w.ledger, w.db.accounts[a].nextBlock);
      assert v.seen == if w.seen < e then e else w.seen;
      assert Landed(w.ledger, images, w.seen) ==> Landed(w.ledger, images, v.seen);
      assert tombstone < w.seen && Landed(w.ledger, images, v.seen) ==> Landed(w.ledger, images, w.seen);
    }
  }

  lemma OtherScanOnTime(w: World, a: AccountId, c: AccountId, log: LogId, open: set<TxoId>, images: set<KeyImage>, tombstone: int,
                        lapsed: bool, outrun: bool)
    requires FollowInv(w, a, log, open, images) && c != a && OnTime(w, log, images, tombstone, lapsed, outrun)
    ensures OnTime(SyncStep(w, a, c), log, images, tombstone, lapsed || Lapses(w, a, Sync(c), log, images), outrun || Outruns(w, a, Sync(c), log))
  {
    OtherScanFailsOrLeaves(w, a, c, log, open, images);
    hide ScanChunk, Inv, LinksOk, Followed;
  }

  lemma AppendOnTime(w: World, a: AccountId, block: Block, log: LogId, open: set<TxoId>, images: set<KeyImage>, tombstone: int,
                     lapsed: bool, outrun: bool)
    requires FollowInv(w, a, log, open, images) && OnTime(w, log, images, tombstone, lapsed, outrun)
    ensures OnTime(w.(ledger := w.ledger + [block]), log, images, tombstone, lapsed, outrun)
  {
    var l' := w.ledger + [block];
    PrefixFacts(w.ledger, l');
    if id :| id in open {
      assert Origin(w, a, a, id);
      assert w.seen <= |w.ledger|;
      assert Landed(w.ledger, images, w.seen) <==> Landed(l', images, w.seen);
    } else {
      assert images == {};
    }
  }

  lemma StepOnTime(w: World, a: AccountId, s: Step, log: LogId, open: set<TxoId>, images: set<KeyImage>, tombstone: int, lapsed: bool, outrun: bool)
    requires FollowInv(w, a, log, open, images) && Decided(w, log, images, lapsed) && Removal.FkValid(w.db) && Enabled(w, a, s)
    requires OnTime(w, log, images, tombstone, lapsed, outrun) && InTime(w.ledger, images, tombstone) && LeavesTombstone(s, log)
    ensures OnTime(Apply(w, a, s), log, images, tombstone, lapsed || Lapses(w, a, s, log, images), outrun || Outruns(w, a, s, log))
  {
    hide Inv, LinksOk, ScanChunk, CreateNext, Removal.FkValid, CreateAccount, Removal.RemoveAccount, Enabled, LogBuilt, LogSigned,
      LogSubmitted, Followed, Decided, InTime, Landed, Expired;
    if s.Sync? {
      if s.account == a {
        SelfScanOnTime(w, a, log, open, images, tombstone, lapsed, outrun);
      } else {
        OtherScanOnTime(w, a, s.account, log, open, images, tombstone, lapsed, outrun);
      }
    } else if s.Append? {
      AppendOnTime(w, a, s.block, log, open, images, tombstone, lapsed, outrun);
    } else {
      FollowedLog(w, a, log, open, images);
      OtherStepUnmoved(w, a, s, log);
      OtherStepKeepsTombstone(w, a, s, log);
    }
  }

  lemma OtherStepKeepsTombstone(w: World, a: AccountId, s: Step, log: LogId)
    requires Removal.FkValid(w.db) && Enabled(w, a, s) && LeavesTombstone(s, log) && !s.Sync? && !s.Append?
    requires log in w.db.logs && w.db.logs[log].account == a && log in Apply(w, a, s).db.logs
    ensures Apply(w, a, s).db.logs[log].tombstone == w.db.logs[log].tombstone
  {
    if s.Build? || s.Sign? || s.Submit? {
      hide Apply;
      RecordKeepsTombstone(w, a, s, log);
    } else if s.Create? {
      CreateTouchesAddresses(w.db, s.account, s.first, s.next, s.viewOnly, s.fog);
      hide CreateAccount;
    } else if s.Remove? && s.account in w.db.accounts {
      Removal.RemovalIsComplete(w.db, s.account);
      hide Removal.RemoveAccount;
    } else if s.Assign? {
      AssignLeavesLogs(w.db, w.ledger, s.account);
      hide CreateNext;
    }
  }

  lemma {:induction false} RunOnTime(w: World, a: AccountId, steps: seq<Step>, log: LogId, open: set<TxoId>, images: set<KeyImage>,
                                     tombstone: int, lapsed: bool, outrun: bool)
    requires FollowInv(w, a, log, open, images) && Decided(w, log, images, lapsed) && Removal.FkValid(w.db) && Admissible(w, a, steps)
    requires OnTime(w, log, images, tombstone, lapsed, outrun) && InTime(Run(w, a, steps).ledger, images, tombstone)
    requires forall s :: s in steps ==> LeavesTombstone(s, log)
    ensures OnTime(Run(w, a, steps), log, images, tombstone, lapsed || Lapsed(w, a, steps, log, images), outrun || Outrun(w, a, steps, log))
    decreases |steps|
  {
    if steps != [] {
      assert steps[0] in steps && forall s :: s in steps[1..] ==> s in steps;
      LedgerGrows(w, a, steps);
      InTimeEarlier(w.ledger, Run(w, a, steps).ledger, images, tombstone);
      StepKeepsDecision(w, a, steps[0], log, open, images, lapsed);
      StepOnTime(w, a, steps[0], log, open, images, tombstone, lapsed, outrun);
      Integrity.StepKeepsForeignKeys(w, a, steps[0]);
      hide Inv, LinksOk, Followed, Decided, Lapses, Outruns, OnTime, Removal.FkValid, Apply, Enabled, InTime;
      RunOnTime(Apply(w, a, steps[0]), a, steps[1..], log, open, images, tombstone, lapsed || Lapses(w, a, steps[0], log, images),
                outrun || Outruns(w, a, steps[0], log));
    }
  }

  lemma InTimeEarlier(l: Chain, m: Chain, images: set<KeyImage>, tombstone: int)
    requires l <= m && InTime(m, images, tombstone)
    ensures InTime(l, images, tombstone)
  {
    PrefixFacts(l, m);
  }

  /**
   In particular, for a log whose tombstone is ahead of the scan and stays, and whose open inputs never land after it:
   it is Succeeded if and only if one has landed and been scanned and no other account outran the log, and Failed if
   and only if one did, or nothing has landed and the scan has passed the tombstone.
   */
  lemma VerdictInTime(w: World, a: AccountId, steps: seq<Step>, log: LogId, tombstone: int)
    requires Traced(w, a, steps, log) && w.db.logs[log].tombstone == Some(tombstone) && w.seen <= tombstone
    requires forall s :: s in steps ==> LeavesTombstone(s, log)
    requires InTime(Run(w, a, steps).ledger, OpenImages(w.db, log), tombstone)
    ensures var v, images := Run(w, a, steps), OpenImages(w.db, log);
      && log in v.db.logs
      && (Status(v.db.logs[log]) == Succeeded <==> Landed(v.ledger, images, v.seen) && !Outrun(w, a, steps, log))
      && (Status(v.db.logs[log]) == Failed <==>
            Outrun(w, a, steps, log) || (!Landed(v.ledger, images, v.seen) && tombstone < v.seen))
  {
    VerdictIff(w, a, steps, log);
    VerdictStarts(w, a, log);
    hide Inv, LinksOk, Followed, Decided, Removal.FkValid, Admissible, Run, Lapsed, Outrun, InTime, Landed;
    RunOnTime(w, a, steps, log, OpenInputs(w.db, log), OpenImages(w.db, log), tombstone, false, false);
  }
}
