/**
 The verdict on a submitted transaction: what a log of account `a` becomes, whichever accounts
 sync, from a moment when it is pending. Inputs that were spent before that moment no longer
 count: `open` holds the ones that were not.
 */
module Verdicts {
  import opened Schema
  import opened Ledger
  import opened Scan
  import opened Logging
  import opened Refinement
  import opened Steps
  import opened Coins
  import Addresses
  import Lifecycle
  import Removal

  /** The inputs of a log that are not spent yet. */
  ghost function OpenInputs(db: Db, log: LogId): set<TxoId> {
    set x | x in db.inputs && x.0 == log && x.1 in db.txos && db.txos[x.1].spent.None? :: x.1
  }

  ghost predicate HaveImages(db: Db, ids: set<TxoId>) {
    forall id :: id in ids ==> id in db.txos && db.txos[id].keyImage.Some?
  }

  ghost function Images(db: Db, ids: set<TxoId>): set<KeyImage> {
    set id | id in ids && id in db.txos && db.txos[id].keyImage.Some? :: db.txos[id].keyImage.value
  }

  /** The key images of the log's open inputs. */
  ghost function OpenImages(db: Db, log: LogId): set<KeyImage> {
    Images(db, OpenInputs(db, log))
  }

  /** Some key image lands in a block below `n`. */
  ghost predicate Landed(l: Chain, images: set<KeyImage>, n: nat) {
    exists b, k :: b < n && k in images && Lands(l, b, k)
  }

  /** `b` is the first block in which a key image lands. */
  ghost predicate FirstLanding(l: Chain, images: set<KeyImage>, b: nat) {
    && (exists k :: k in images && Lands(l, b, k))
    && (forall c, k :: k in images && Lands(l, c, k) ==> b <= c)
  }

  /** Consensus accepts a transaction only up to its tombstone. */
  ghost predicate InTime(l: Chain, images: set<KeyImage>, tombstone: int) {
    forall b, k :: k in images && Lands(l, b, k) ==> b <= tombstone
  }

  /** The log that is being followed, with the inputs that were open at the start and their key images. */
  ghost predicate Followed(w: World, a: AccountId, log: LogId, open: set<TxoId>, images: set<KeyImage>) {
    && log in w.db.logs && w.db.logs[log].account == a && w.db.logs[log].submitted.Some?
    && (forall x :: x in w.db.inputs && x.0 == log ==>
          x.1 in w.db.txos && w.db.txos[x.1].account == Some(a) && (x.1 !in open ==> w.db.txos[x.1].spent.Some?))
    && (forall id :: id in open ==> (log, id) in w.db.inputs && id !in w.repaired)
    && HaveImages(w.db, open) && Images(w.db, open) == images
  }

  ghost predicate FollowInv(w: World, a: AccountId, log: LogId, open: set<TxoId>, images: set<KeyImage>) {
    Inv(w, a) && LinksOk(w.db, a) && Followed(w, a, log, open, images)
  }

  /**
   The step is a chunk, of any account, that ends beyond the tombstone of the still undecided log; a chunk of
   the log's own account must also end before any open input has landed.
   */
  ghost predicate Lapses(w: World, a: AccountId, s: Step, log: LogId, images: set<KeyImage>) {
    && s.Sync? && s.account in w.db.accounts && w.db.accounts[s.account].nextBlock < |w.ledger| && log in w.db.logs
    && Expired(w.db.logs[log], ChunkEnd(w.ledger, w.db.accounts[s.account].nextBlock))
    && (s.account == a ==> !Landed(w.ledger, images, ChunkEnd(w.ledger, w.db.accounts[a].nextBlock)))
  }

  /** Failed if the log has lapsed; else succeeded at the first landing once that is scanned; else undecided. */
  ghost predicate Decided(w: World, log: LogId, images: set<KeyImage>, lapsed: bool)
    requires log in w.db.logs
  {
    var row := w.db.logs[log];
    && row.failed == lapsed
    && if !lapsed && Landed(w.ledger, images, w.seen) then
         row.finalized.Some? && FirstLanding(w.ledger, images, row.finalized.value)
       else row.finalized.None?
  }

  // ----- The start -----

  /** A pending log can be followed, however many of its inputs are open and wherever its tombstone lies. */
  lemma VerdictStarts(w: World, a: AccountId, log: LogId)
    requires Inv(w, a) && LinksOk(w.db, a) && log in w.db.logs && w.db.logs[log].account == a && Pending(w.db.logs[log])
    ensures FollowInv(w, a, log, OpenInputs(w.db, log), OpenImages(w.db, log))
    ensures !Landed(w.ledger, OpenImages(w.db, log), w.seen) && Decided(w, log, OpenImages(w.db, log), false)
  {
    forall id | id in OpenInputs(w.db, log)
      ensures id in w.db.txos && w.db.txos[id].keyImage.Some? && id !in w.repaired
      ensures forall b :: b < w.seen ==> !Lands(w.ledger, b, w.db.txos[id].keyImage.value)
    {
      InputIsMine(w, a, id);
    }
  }

  /** The row of an input is the row of one of the account's outputs, and its key image is that output's. */
  lemma InputIsMine(w: World, a: AccountId, id: TxoId)
    requires Inv(w, a) && id in w.db.txos && w.db.txos[id].account == Some(a) && w.db.txos[id].keyImage.Some?
    ensures w.db.txos[id].subaddress.Some?
    ensures w.db.txos[id].spent.None? ==> id !in w.repaired && forall b :: b < w.seen ==> !Lands(w.ledger, b, w.db.txos[id].keyImage.value)
    ensures w.db.txos[id].spent.Some? && id !in w.repaired ==>
      w.db.txos[id].spent.value < w.seen && Lands(w.ledger, w.db.txos[id].spent.value, w.db.txos[id].keyImage.value)
  {
    assert Origin(w, a, a, id);
    var i, o :| Has(w.ledger, i, o) && o.id == id && o.viewer == a && Mine(w, a, i, o);
    RowColumns(w.db.subaddresses, a, i, o, w.db.txos[id].spent);
  }

  // ----- Scanning by the account itself -----

  /** Which pairs of the chunk hit the log. */
  lemma ChunkHits(w: World, a: AccountId, log: LogId, open: set<TxoId>, images: set<KeyImage>)
    requires FollowInv(w, a, log, open, images) && w.db.accounts[a].nextBlock < |w.ledger|
    requires !Landed(w.ledger, images, w.seen)
    ensures var e := ChunkEnd(w.ledger, w.db.accounts[a].nextBlock);
      var hit := FirstHit(w.db.inputs, ChunkSpent(w.db, w.ledger, a), log);
      && (hit.Some? <==> Landed(w.ledger, images, e))
      && (hit.Some? ==> FirstLanding(w.ledger, images, hit.value))
  {
    var s := w.db.accounts[a].nextBlock;
    var e, spent := ChunkEnd(w.ledger, s), ChunkSpent(w.db, w.ledger, a);
    ChunkSpentOrdered(w.db, w.ledger, a);
    FirstHitExact(w.db.inputs, spent, log);
    var hit := FirstHit(w.db.inputs, spent, log);
    if hit.Some? {
      var id :| (hit.value, id) in spent && (log, id) in w.db.inputs;
      HitLands(w, a, log, open, images, hit.value, id);
    }
    forall b, k | k in images && Lands(w.ledger, b, k)
      ensures b < e ==> hit.Some? && hit.value <= b
      ensures hit.Some? ==> hit.value <= b
    {
      assert w.seen <= b;
      if b < e {
        var id :| id in open && w.db.txos[id].keyImage.value == k;
        LandingHits(w, a, log, open, images, b, id);
      }
    }
  }

  lemma HitLands(w: World, a: AccountId, log: LogId, open: set<TxoId>, images: set<KeyImage>, b: nat, id: TxoId)
    requires FollowInv(w, a, log, open, images) && w.db.accounts[a].nextBlock < |w.ledger|
    requires (b, id) in ChunkSpent(w.db, w.ledger, a) && (log, id) in w.db.inputs
    ensures b < ChunkEnd(w.ledger, w.db.accounts[a].nextBlock) && exists k :: k in images && Lands(w.ledger, b, k)
  {
    ChunkSpentSound(w.db, w.ledger, a, b, id);
    ScanKeepsMyRow(w, a, id);
    assert id in open && w.db.txos[id].keyImage.value in images;
  }

  lemma LandingHits(w: World, a: AccountId, log: LogId, open: set<TxoId>, images: set<KeyImage>, b: nat, id: TxoId)
    requires FollowInv(w, a, log, open, images) && !Landed(w.ledger, images, w.seen)
    requires w.db.accounts[a].nextBlock < |w.ledger| && w.seen <= b < ChunkEnd(w.ledger, w.db.accounts[a].nextBlock)
    requires id in open && Lands(w.ledger, b, w.db.txos[id].keyImage.value)
    ensures (b, id) in ChunkSpent(w.db, w.ledger, a)
  {
    assert w.db.txos[id].keyImage.value in images;
    InputIsMine(w, a, id);
    assert w.db.txos[id].spent.None?;
    ScanKeepsMyRow(w, a, id);
    ReceivedUniqueImages(w, a);
    ChunkSpentComplete(w.db, w.ledger, a, b, id);
  }

  lemma ScanKeepsFollowed(w: World, a: AccountId, log: LogId, open: set<TxoId>, images: set<KeyImage>)
    requires FollowInv(w, a, log, open, images) && w.db.accounts[a].nextBlock < |w.ledger|
    ensures Followed(SyncStep(w, a, a), a, log, open, images)
  {
    var w' := SyncStep(w, a, a);
    ScanLog(w.db, w.ledger, a, log);
    forall x | x in w.db.inputs && x.0 == log
      ensures x.1 in w'.db.txos && w'.db.txos[x.1].account == Some(a) && w'.db.txos[x.1].keyImage == w.db.txos[x.1].keyImage
      ensures w.db.txos[x.1].spent.Some? ==> w'.db.txos[x.1].spent.Some?
    {
      ScanKeepsMyRow(w, a, x.1);
    }
    hide ScanChunk;
    ImagesSame(w.db, w'.db, open);
  }

  lemma ImagesSame(db: Db, db': Db, ids: set<TxoId>)
    requires HaveImages(db, ids)
    requires forall id :: id in ids ==> id in db'.txos && db'.txos[id].keyImage == db.txos[id].keyImage
    ensures HaveImages(db', ids) && Images(db', ids) == Images(db, ids)
  {
    forall k ensures k in Images(db', ids) <==> k in Images(db, ids) {
    }
  }

  /**
   What a chunk of the account makes of an undecided log: it succeeds if and only if an open input lands
   before the end of the chunk, even beyond the tombstone, and else fails if the chunk passes the tombstone.
   */
  lemma ChunkDecides(w: World, a: AccountId, log: LogId, open: set<TxoId>, images: set<KeyImage>)
    requires FollowInv(w, a, log, open, images) && w.db.accounts[a].nextBlock < |w.ledger|
    requires Pending(w.db.logs[log]) && !Landed(w.ledger, images, w.seen)
    ensures var e := ChunkEnd(w.ledger, w.db.accounts[a].nextBlock);
      var logs := SyncStep(w, a, a).db.logs;
      && log in logs
      && (Status(logs[log]) == Succeeded <==> Landed(w.ledger, images, e))
      && (Status(logs[log]) == Succeeded ==> FirstLanding(w.ledger, images, logs[log].finalized.value))
      && (Status(logs[log]) == Failed <==> !Landed(w.ledger, images, e) && Expired(w.db.logs[log], e))
  {
    ScanLog(w.db, w.ledger, a, log);
    ChunkHits(w, a, log, open, images);
  }

  /**
   A key image that lands after the tombstone: the chunk that first passes the tombstone decides. One that
   ends before the landing fails the log, one that reaches it makes the log succeed.
   */
  lemma LateLandingDependsOnTheChunk(w: World, v: World, a: AccountId, log: LogId, open: set<TxoId>, images: set<KeyImage>, b: nat)
    requires FollowInv(w, a, log, open, images) && w.db.accounts[a].nextBlock < |w.ledger| && Pending(w.db.logs[log])
    requires FollowInv(v, a, log, open, images) && v.db.accounts[a].nextBlock < |v.ledger| && Pending(v.db.logs[log])
    requires v.ledger == w.ledger && FirstLanding(w.ledger, images, b) && w.seen <= b && v.seen <= b
    requires ChunkEnd(w.ledger, w.db.accounts[a].nextBlock) <= b < ChunkEnd(v.ledger, v.db.accounts[a].nextBlock)
    requires Expired(w.db.logs[log], ChunkEnd(w.ledger, w.db.accounts[a].nextBlock))
    ensures log in SyncStep(w, a, a).db.logs && Status(SyncStep(w, a, a).db.logs[log]) == Failed
    ensures log in SyncStep(v, a, a).db.logs && Status(SyncStep(v, a, a).db.logs[log]) == Succeeded
  {
    hide Inv, LinksOk, Followed, ScanChunk;
    ChunkDecides(w, a, log, open, images);
    ChunkDecides(v, a, log, open, images);
  }

  /** A landed transaction is never failed, even when its block and its tombstone are scanned together. */
  lemma ScanKeepsDecision(w: World, a: AccountId, log: LogId, open: set<TxoId>, images: set<KeyImage>, lapsed: bool)
    requires FollowInv(w, a, log, open, images) && Decided(w, log, images, lapsed)
    ensures log in SyncStep(w, a, a).db.logs
    ensures Decided(SyncStep(w, a, a), log, images, lapsed || Lapses(w, a, Sync(a), log, images))
  {
    if w.db.accounts[a].nextBlock < |w.ledger| {
      var w' := SyncStep(w, a, a);
      var e := ChunkEnd(w.ledger, w.db.accounts[a].nextBlock);
      ScanLog(w.db, w.ledger, a, log);
      if !lapsed {
        if Landed(w.ledger, images, w.seen) {
          assert Landed(w.ledger, images, w'.seen);
        } else {
          ChunkHits(w, a, log, open, images);
          assert Landed(w.ledger, images, e) ==> Landed(w.ledger, images, w'.seen);
          assert w'.seen == if w.seen < e then e else w.seen;
        }
      }
    }
  }

  // ----- Scanning by another account -----

  /** Another account's chunk leaves the log alone, unless it passes the tombstone: then an undecided log fails. */
  lemma OtherScanFailsOrLeaves(w: World, a: AccountId, c: AccountId, log: LogId, open: set<TxoId>, images: set<KeyImage>)
    requires FollowInv(w, a, log, open, images) && c != a
    ensures var logs := SyncStep(w, a, c).db.logs;
      log in logs && logs[log] == if Lapses(w, a, Sync(c), log, images) then w.db.logs[log].(failed := true) else w.db.logs[log]
  {
    if c in w.db.accounts && w.db.accounts[c].nextBlock < |w.ledger| {
      var spent := ChunkSpent(w.db, w.ledger, c);
      forall x | x in spent
        ensures (log, x.1) !in w.db.inputs
      {
        if (log, x.1) in w.db.inputs {
          ChunkSpentSound(w.db, w.ledger, c, x.0, x.1);
          ReceivedOwnerKept(w, a, c, x.1);
        }
      }
      ChunkSpentOrdered(w.db, w.ledger, c);
      FirstHitExact(w.db.inputs, spent, log);
      ScanLog(w.db, w.ledger, c, log);
    }
  }

  lemma OtherScanKeepsFollowed(w: World, a: AccountId, c: AccountId, log: LogId, open: set<TxoId>, images: set<KeyImage>)
    requires FollowInv(w, a, log, open, images) && c != a
    ensures Followed(SyncStep(w, a, c), a, log, open, images)
  {
    var w' := SyncStep(w, a, c);
    OtherScanFailsOrLeaves(w, a, c, log, open, images);
    forall x | x in w.db.inputs && x.0 == log
      ensures x.1 in w'.db.txos && w'.db.txos[x.1] == w.db.txos[x.1]
    {
      ScanKeepsOwner(w, a, c, x.1);
    }
    hide ScanChunk, Inv;
    ImagesSame(w.db, w'.db, open);
  }

  // ----- The other steps -----

  lemma AppendKeepsDecision(w: World, a: AccountId, block: Block, log: LogId, open: set<TxoId>, images: set<KeyImage>, lapsed: bool)
    requires FollowInv(w, a, log, open, images) && Decided(w, log, images, lapsed)
    ensures Decided(w.(ledger := w.ledger + [block]), log, images, lapsed)
  {
    var l, l' := w.ledger, w.ledger + [block];
    PrefixFacts(l, l');
    if id :| id in open {
      assert Origin(w, a, a, id);
      assert w.seen <= |l|;
      assert forall b, k :: b < w.seen ==> (Lands(l', b, k) <==> Lands(l, b, k));
      if !lapsed && Landed(l, images, w.seen) {
        var b, k :| b < w.seen && k in images && Lands(l, b, k);
        assert Lands(l', b, k);
        var f := w.db.logs[log].finalized.value;
        assert forall c, j :: j in images && Lands(l', c, j) ==> f <= c by {
          forall c, j | j in images && Lands(l', c, j) ensures f <= c {
            if c < |l| {
              assert Lands(l, c, j);
            }
          }
        }
      }
    } else {
      assert images == {};
    }
  }

  predicate SameOutcome(row: Log, row': Log) {
    && row'.account == row.account && row'.failed == row.failed
    && row'.finalized == row.finalized && (row.submitted.Some? ==> row'.submitted.Some?)
  }

  /** Nothing that the verdict depends on has changed. */
  ghost predicate Unmoved(w: World, w': World, a: AccountId, log: LogId)
    requires log in w.db.logs
  {
    && w'.ledger == w.ledger && w'.seen == w.seen
    && log in w'.db.logs && SameOutcome(w.db.logs[log], w'.db.logs[log])
    && (forall x: (LogId, TxoId) :: x.0 == log ==> (x in w.db.inputs <==> x in w'.db.inputs))
    && (forall x :: x in w.db.inputs && x.0 == log && x.1 in w.db.txos && w.db.txos[x.1].account == Some(a) ==>
          && x.1 in w'.db.txos && w'.db.txos[x.1].account == Some(a) && w'.db.txos[x.1].keyImage == w.db.txos[x.1].keyImage
          && (w.db.txos[x.1].spent.Some? ==> w'.db.txos[x.1].spent.Some?)
          && (x.1 in w'.repaired ==> x.1 in w.repaired))
  }

  lemma UnmovedKeepsDecision(w: World, w': World, a: AccountId, log: LogId, open: set<TxoId>, images: set<KeyImage>, lapsed: bool)
    requires Followed(w, a, log, open, images) && Decided(w, log, images, lapsed) && Unmoved(w, w', a, log)
    ensures Followed(w', a, log, open, images) && Decided(w', log, images, lapsed)
  {
    ImagesSame(w.db, w'.db, open);
  }

  lemma RecordUnmoved(w: World, db': Db, a: AccountId, c: AccountId, log: LogId)
    requires Inv(w, a) && LinksOk(w.db, a) && log in w.db.logs && Recorded(w.db, db', a, c)
    ensures Unmoved(w, w.(db := db'), a, log)
  {
    forall x | x in db'.inputs && x.0 == log ensures x in w.db.inputs {
      assert db'.inputs == w.db.inputs || exists added :: added !in w.db.logs && NewLinks(w.db, db'.inputs, added, c);
    }
  }

  lemma BuildKeepsTombstone(db: Db, p: UnsignedProposal, c: AccountId, log: LogId)
    requires log in db.logs
    ensures log in LogBuilt(db, p, c).db.logs && LogBuilt(db, p, c).db.logs[log].tombstone == db.logs[log].tombstone
  {
    hide NewBuiltLog, TransactionId;
    var id := TransactionId(p.payload);
    if id.Some? {
      Lifecycle.NewBuiltLogLogs(db, p, c, id.value);
    }
  }

  lemma SignKeepsTombstone(db: Db, p: Proposal, comment: string, c: AccountId, log: LogId)
    requires log in db.logs && TransactionId(p.payload) != Some(log)
    ensures log in LogSigned(db, p, comment, c).db.logs && LogSigned(db, p, comment, c).db.logs[log].tombstone == db.logs[log].tombstone
  {
    hide NewLog, TransactionId;
    UpdateImagesFrame(db, p.inputs);
    var id := TransactionId(p.payload);
    if id.Some? {
      Lifecycle.NewLogLogs(db, p, None, comment, c, id.value);
    }
  }

  lemma SubmitKeepsTombstone(db: Db, p: Proposal, at: nat, comment: string, c: AccountId, log: LogId)
    requires log in db.logs
    ensures log in LogSubmitted(db, p, at, comment, c).db.logs
    ensures LogSubmitted(db, p, at, comment, c).db.logs[log].tombstone == db.logs[log].tombstone
  {
    hide NewLog, TransactionId;
    var id := TransactionId(p.payload);
    if id.Some? {
      Lifecycle.NewLogLogs(db, p, Some(at), comment, c, id.value);
    }
  }

  lemma AssignUnmoved(w: World, a: AccountId, c: AccountId, log: LogId)
    requires LinksOk(w.db, a) && log in w.db.logs && w.db.logs[log].account == a
    ensures Unmoved(w, AssignStep(w, a, c), a, log)
  {
    AssignTouchesOrphans(w, a, c);
    hide AssignStep;
    assert forall x :: x in w.db.inputs && x.0 == log ==> w.db.txos[x.1].keyImage.Some?;
  }

  /** Assigning changes no row that has a key image. */
  lemma AssignTouchesOrphans(w: World, a: AccountId, c: AccountId)
    ensures var v := AssignStep(w, a, c);
      && v.ledger == w.ledger && v.seen == w.seen && v.db == w.db.(txos := v.db.txos, subaddresses := v.db.subaddresses)
      && v.db.txos.Keys == w.db.txos.Keys
      && forall id :: id in w.db.txos && w.db.txos[id].keyImage.Some? ==>
           v.db.txos[id] == w.db.txos[id] && (id in v.repaired ==> id in w.repaired)
  {
    hide Addresses.NextIndex, Addresses.Repairable;
  }

  lemma RemoveUnmoved(w: World, a: AccountId, c: AccountId, log: LogId)
    requires LinksOk(w.db, a) && Removal.FkValid(w.db) && c != a && log in w.db.logs && w.db.logs[log].account == a
    ensures Unmoved(w, w.(db := Removal.RemoveAccount(w.db, c).db), a, log)
  {
    if c in w.db.accounts {
      Removal.RemovalIsComplete(w.db, c);
      hide Removal.RemoveAccount;
    }
  }

  // ----- Recording -----

  lemma RecordLeavesLog(w: World, a: AccountId, s: Step, log: LogId)
    requires Inv(w, a) && LinksOk(w.db, a) && log in w.db.logs && Enabled(w, a, s)
    requires s.Build? || s.Sign? || s.Submit?
    ensures Unmoved(w, Apply(w, a, s), a, log)
  {
    var w' := Apply(w, a, s);
    match s {
      case Build(p, c) =>
        BuiltRecorded(w.db, p, a, c);
        hide LogBuilt;
        if w'.db != w.db {
          RecordUnmoved(w, w'.db, a, c, log);
        }
      case Sign(p, comment, c) =>
        SignedRecorded(w.db, p, comment, a, c);
        hide LogSigned;
        if w'.db != w.db {
          RecordUnmoved(w, w'.db, a, c, log);
        }
      case Submit(p, at, comment, c) =>
        SubmittedRecorded(w.db, p, at, comment, a, c);
        hide LogSubmitted;
        RecordUnmoved(w, w'.db, a, c, log);
    }
  }

  /** The log is not signed again, which would move its tombstone. */
  predicate LeavesTombstone(s: Step, log: LogId) {
    s.Sign? ==> TransactionId(s.proposal.payload) != Some(log)
  }

  lemma RecordKeepsTombstone(w: World, a: AccountId, s: Step, log: LogId)
    requires log in w.db.logs && LeavesTombstone(s, log) && (s.Build? || s.Sign? || s.Submit?)
    ensures var v := Apply(w, a, s); log in v.db.logs && v.db.logs[log].tombstone == w.db.logs[log].tombstone
  {
    hide LogBuilt, LogSigned, LogSubmitted, TransactionId;
    match s
    case Build(p, c) => BuildKeepsTombstone(w.db, p, c, log);
    case Sign(p, comment, c) => SignKeepsTombstone(w.db, p, comment, c, log);
    case Submit(p, at, comment, c) => SubmitKeepsTombstone(w.db, p, at, comment, c, log);
  }
}
