/**
 What every queue transaction keeps: rows only move forward, admitted bytes stay
 inside the two limits, replay provenance is never lost, and restart recovery
 leaves a complete and duplicate-free incident table.
 */
module QueueLaws {
  import opened Prelude
  import opened EdgeModel
  import opened EdgeTransactions

  // ---- Rows only move forward ----

  ghost predicate WellFormed(db: EdgeDb) {
    && (forall s | s in db.rows :: 1 <= s <= db.lastSequence && WellFormedEvent(db.rows[s].event))
    && (forall s | s in db.incidents :: 1 <= s <= db.lastSequence)
  }

  /** A later version of the same record: identity kept, terminal stays terminal, provenance and rejections never undone. */
  ghost predicate RowEvolves(r: Row, r': Row) {
    && r'.event == r.event && r'.persistedAt == r.persistedAt
    && (!r.status.Active() ==> !r'.status.Active())
    && (r.replay ==> r'.replay)
    && r.rejections <= r'.rejections
    && (r'.code == r.code || r'.code.None?)
  }

  /** No record appears, and only records that are no longer owed disappear. */
  ghost predicate Evolves(db: EdgeDb, db': EdgeDb) {
    && db'.lastSequence == db.lastSequence
    && db'.rows.Keys <= db.rows.Keys
    && db.incidents.Keys <= db'.incidents.Keys
    && (forall s | s in db'.rows :: RowEvolves(db.rows[s], db'.rows[s]))
    && (forall s | s in db.rows && s !in db'.rows :: !db.rows[s].status.Active())
  }

  lemma EvolvesTransitive(a: EdgeDb, b: EdgeDb, c: EdgeDb)
    requires Evolves(a, b) && Evolves(b, c) && c.rows.Keys == b.rows.Keys
    ensures Evolves(a, c)
  {
    forall s | s in c.rows ensures RowEvolves(a.rows[s], c.rows[s]) {
      assert RowEvolves(a.rows[s], b.rows[s]) && RowEvolves(b.rows[s], c.rows[s]);
    }
  }

  lemma PendingEvolves(db: EdgeDb, s: nat)
    ensures Evolves(db, MarkPendingUpload(db, s).0)
  {
  }

  lemma CompletionEvolves(db: EdgeDb, s: nat, at: int)
    ensures Evolves(db, CompleteUpload(db, s, at).0)
  {
  }

  lemma AbandonmentEvolves(db: EdgeDb, s: nat, cause: string)
    ensures Evolves(db, Abandon(db, s, cause).0)
  {
  }

  lemma FailureEvolves(db: EdgeDb, s: nat, retryAt: int, cause: string, rejected: bool)
    ensures Evolves(db, MarkFailed(db, s, retryAt, cause, rejected).0)
  {
  }

  lemma {:induction false} RebuildGrows(rows: map<nat, Row>, incidents: map<nat, Incident>, n: nat)
    ensures forall i | i in incidents :: i in RebuildIncidents(rows, incidents, n) && RebuildIncidents(rows, incidents, n)[i] == incidents[i]
    ensures forall i | i in RebuildIncidents(rows, incidents, n) ::
      i in incidents || (1 <= i <= n && AwaitsIncident(rows, i) && RebuildIncidents(rows, incidents, n)[i] == RebuiltIncident(rows[i]))
  {
    if n > 0 {
      RebuildGrows(rows, incidents, n - 1);
    }
  }

  lemma PurgeEvolves(db: EdgeDb, cutoff: int)
    ensures Evolves(db, Purge(db, cutoff))
  {
  }

  lemma InterruptionEvolves(db: EdgeDb)
    ensures Evolves(db, RecoverInterrupted(db))
  {
  }

  lemma RebuildingEvolves(db: EdgeDb)
    ensures Evolves(db, RecoverIncidents(db))
  {
    var suppressed := SuppressCovered(db);
    RebuildGrows(suppressed.rows, suppressed.incidents, suppressed.lastSequence);
  }

  lemma ReopenEvolves(db: EdgeDb)
    ensures Evolves(db, Reopen(db))
  {
    InterruptionEvolves(db);
    RebuildingEvolves(RecoverInterrupted(db));
    EvolvesTransitive(db, RecoverInterrupted(db), Reopen(db));
  }

  // ---- Byte admission ----

  ghost predicate WithinCapacity(cfg: Config, db: EdgeDb) {
    && ActiveBytes(db) <= cfg.PayloadCapacity()
    && PriorityBytes(db, PRIORITY_NORMAL) <= cfg.NormalAdmissionLimit()
  }

  /** Progress never costs bytes, for the whole queue or for one priority. */
  lemma EvolvingFreesBytes(db: EdgeDb, db': EdgeDb, priority: int)
    requires Evolves(db, db')
    ensures ActiveBytes(db') <= ActiveBytes(db)
    ensures PriorityBytes(db', priority) <= PriorityBytes(db, priority)
  {
    forall i | 1 <= i <= db.lastSequence
      ensures ActiveWeight(db'.rows)(i) <= ActiveWeight(db.rows)(i)
      ensures PriorityWeight(db'.rows, priority)(i) <= PriorityWeight(db.rows, priority)(i)
    {
      if i in db'.rows {
        assert RowEvolves(db.rows[i], db'.rows[i]);
      }
    }
    TotalMonotone(db.lastSequence, ActiveWeight(db'.rows), ActiveWeight(db.rows));
    TotalMonotone(db.lastSequence, PriorityWeight(db'.rows, priority), PriorityWeight(db.rows, priority));
  }

  lemma InsertedBytes(cfg: Config, db: EdgeDb, e: Event, status: Status, now: int, disk: Disk, priority: int)
    requires status.Active() && Refusal(cfg, db, e, disk).None?
    ensures var db' := Insert(cfg, db, e, status, now, disk).0;
      && ActiveBytes(db') == ActiveBytes(db) + |e.payload|
      && PriorityBytes(db', priority) == PriorityBytes(db, priority) + (if e.priority == priority then |e.payload| else 0)
  {
    var db' := Insert(cfg, db, e, status, now, disk).0;
    TotalEqual(db.lastSequence, ActiveWeight(db'.rows), ActiveWeight(db.rows));
    TotalEqual(db.lastSequence, PriorityWeight(db'.rows, priority), PriorityWeight(db.rows, priority));
  }

  lemma InsertKeepsCapacity(cfg: Config, db: EdgeDb, e: Event, status: Status, now: int, disk: Disk)
    requires status.Active() && WellFormed(db) && WithinCapacity(cfg, db)
    ensures WithinCapacity(cfg, Insert(cfg, db, e, status, now, disk).0)
  {
    if Refusal(cfg, db, e, disk).None? {
      InsertedBytes(cfg, db, e, status, now, disk, PRIORITY_NORMAL);
      PriorityBytesSplit(db);
    }
  }

  lemma PriorityBytesSplit(db: EdgeDb)
    requires WellFormed(db)
    ensures ActiveBytes(db) == PriorityBytes(db, PRIORITY_NORMAL) + PriorityBytes(db, PRIORITY_CRITICAL)
  {
    forall i | 1 <= i <= db.lastSequence
      ensures ActiveWeight(db.rows)(i) == PriorityWeight(db.rows, PRIORITY_NORMAL)(i) + PriorityWeight(db.rows, PRIORITY_CRITICAL)(i)
    {
      assert i in db.rows ==> WellFormedEvent(db.rows[i].event);
    }
    TotalAdds(db.lastSequence, PriorityWeight(db.rows, PRIORITY_NORMAL), PriorityWeight(db.rows, PRIORITY_CRITICAL), ActiveWeight(db.rows));
  }

  /** The reserve works: normal traffic can never take the bytes a critical event is entitled to. */
  lemma ReserveAdmitsCritical(cfg: Config, db: EdgeDb, e: Event, disk: Disk)
    requires WellFormed(db) && WithinCapacity(cfg, db)
    requires WellFormedEvent(e) && e.priority == PRIORITY_CRITICAL
    requires |e.payload| <= cfg.maxEventBytes && CheckAdmission(cfg, e, disk).None?
    requires PriorityBytes(db, PRIORITY_CRITICAL) + |e.payload| <= cfg.PayloadCapacity() - cfg.NormalAdmissionLimit()
    ensures Refusal(cfg, db, e, disk).None?
  {
    PriorityBytesSplit(db);
  }

  datatype QueueState = Healthy | Warning | NormalSuspended | Full | FilesystemLow

  function StateOf(cfg: Config, db: EdgeDb, disk: Disk): QueueState {
    if cfg.minFilesystemFreeBytes > 0 && disk.freeBytes < cfg.minFilesystemFreeBytes then FilesystemLow
    else if disk.usedBytes >= cfg.maxStorageBytes || ActiveBytes(db) >= cfg.PayloadCapacity() then Full
    else if ActiveBytes(db) >= cfg.NormalAdmissionLimit() then NormalSuspended
    else if disk.usedBytes * 100 >= cfg.maxStorageBytes * cfg.warningPercent
         || ActiveBytes(db) * 100 >= cfg.PayloadCapacity() * cfg.warningPercent then Warning
    else Healthy
  }

  /** The reported state is a promise about the next insert made under the same measurements. */
  lemma ReportedStateIsHonest(cfg: Config, db: EdgeDb, e: Event, disk: Disk)
    ensures StateOf(cfg, db, disk).Full? || StateOf(cfg, db, disk).FilesystemLow? ==> Refusal(cfg, db, e, disk).Some?
    ensures StateOf(cfg, db, disk).NormalSuspended? && e.priority == PRIORITY_NORMAL ==> Refusal(cfg, db, e, disk).Some?
    ensures Refusal(cfg, db, e, disk) == Some(CriticalReserve) ==>
      StateOf(cfg, db, disk).NormalSuspended? || ActiveBytes(db) + |e.payload| > cfg.NormalAdmissionLimit()
  {
  }

  // ---- Replay provenance ----

  /**
   A flagged record keeps replay mode on, and every younger undelivered record is
   flagged as well: nothing inserted during an outage passes for live telemetry.
   */
  ghost predicate ReplayProvenance(db: EdgeDb) {
    && (FlaggedActive(db.rows) ==> db.sync.replayMode)
    && (forall i, j | i in db.rows && j in db.rows && i < j ::
          db.rows[i].status.Active() && db.rows[i].replay && db.rows[j].status.Active() ==> db.rows[j].replay)
  }

  lemma InsertKeepsProvenance(cfg: Config, db: EdgeDb, e: Event, status: Status, now: int, disk: Disk)
    requires WellFormed(db) && ReplayProvenance(db)
    ensures ReplayProvenance(Insert(cfg, db, e, status, now, disk).0)
  {
    var db' := Insert(cfg, db, e, status, now, disk).0;
    if Refusal(cfg, db, e, disk).None? {
      forall i | i in db.rows && db.rows[i].status.Active() && db.rows[i].replay ensures db.sync.replayMode {
        assert FlaggedActive(db.rows);
      }
    }
  }

  /** Steps that flag nothing and leave replay mode alone keep the invariant. */
  lemma FlagsSurvive(db: EdgeDb, db': EdgeDb)
    requires ReplayProvenance(db) && Evolves(db, db') && db'.sync.replayMode == db.sync.replayMode
    requires forall s | s in db'.rows :: db'.rows[s].replay == db.rows[s].replay
    ensures ReplayProvenance(db')
  {
    ActiveOnlyShrinks(db, db');
    assert FlaggedActive(db'.rows) ==> FlaggedActive(db.rows);
  }

  lemma PendingKeepsProvenance(db: EdgeDb, s: nat)
    requires ReplayProvenance(db)
    ensures ReplayProvenance(MarkPendingUpload(db, s).0)
  {
    PendingEvolves(db, s);
    FlagsSurvive(db, MarkPendingUpload(db, s).0);
  }

  lemma CompletionKeepsProvenance(db: EdgeDb, s: nat, at: int)
    requires ReplayProvenance(db)
    ensures ReplayProvenance(CompleteUpload(db, s, at).0)
  {
    var db' := CompleteUpload(db, s, at).0;
    CompletionEvolves(db, s, at);
    RefreshKeepsProvenance(db, db');
  }

  lemma AbandonmentKeepsProvenance(db: EdgeDb, s: nat, cause: string)
    requires ReplayProvenance(db)
    ensures ReplayProvenance(Abandon(db, s, cause).0)
  {
    AbandonmentEvolves(db, s, cause);
    FlagsSurvive(db, Abandon(db, s, cause).0);
  }

  lemma FailureKeepsProvenance(db: EdgeDb, s: nat, retryAt: int, cause: string, rejected: bool)
    requires ReplayProvenance(db)
    ensures ReplayProvenance(MarkFailed(db, s, retryAt, cause, rejected).0)
  {
  }

  /** Recomputing replay mode from the table itself. */
  lemma RefreshKeepsProvenance(db: EdgeDb, db': EdgeDb)
    requires ReplayProvenance(db) && Evolves(db, db')
    requires db'.sync.replayMode == FlaggedActive(db'.rows) || db' == db
    requires forall s | s in db'.rows :: db'.rows[s].replay == db.rows[s].replay
    ensures ReplayProvenance(db')
  {
    ActiveOnlyShrinks(db, db');
  }

  lemma ActiveOnlyShrinks(db: EdgeDb, db': EdgeDb)
    requires Evolves(db, db')
    ensures forall s | s in db'.rows :: db'.rows[s].status.Active() ==> db.rows[s].status.Active()
  {
    forall s | s in db'.rows ensures db'.rows[s].status.Active() ==> db.rows[s].status.Active() {
      assert RowEvolves(db.rows[s], db'.rows[s]);
    }
  }

  lemma PurgeKeepsProvenance(db: EdgeDb, cutoff: int)
    requires ReplayProvenance(db)
    ensures ReplayProvenance(Purge(db, cutoff))
  {
    PurgeEvolves(db, cutoff);
    FlagsSurvive(db, Purge(db, cutoff));
  }

  lemma ContactKeepsProvenance(db: EdgeDb, at: int, cause: string)
    requires ReplayProvenance(db)
    ensures ReplayProvenance(ContactSuccess(db, at))
    ensures ReplayProvenance(ContactFailure(db, cause))
  {
  }

  lemma ReopenKeepsProvenance(db: EdgeDb)
    ensures ReplayProvenance(Reopen(db))
  {
    var interrupted := RecoverInterrupted(db);
    assert ReplayProvenance(interrupted);
    RebuildingEvolves(interrupted);
    FlagsSurvive(interrupted, Reopen(db));
  }

  /** One recorded failure, or a restart, marks every undelivered record. */
  lemma FailureMarksEverything(db: EdgeDb, s: nat, retryAt: int, cause: string, rejected: bool)
    requires MarkFailed(db, s, retryAt, cause, rejected).1 == Done
    ensures var db' := MarkFailed(db, s, retryAt, cause, rejected).0;
      db'.sync.replayMode && forall i | i in db'.rows && db'.rows[i].status.Active() :: db'.rows[i].replay
    ensures forall i | i in db.rows && db.rows[i].status.Active() ::
      i in MarkFailed(db, s, retryAt, cause, rejected).0.rows ==> MarkFailed(db, s, retryAt, cause, rejected).0.rows[i].replay
  {
  }

  lemma RestartMarksEverything(db: EdgeDb)
    ensures forall i | i in db.rows && db.rows[i].status.Active() :: i in Reopen(db).rows ==> Reopen(db).rows[i].replay
  {
  }

  /** Steps that leave the queue and its contact state alone. */
  predicate OffRows(tx: Transaction) {
    tx.OpenTx? || tx.ResolveTx? || tx.UploadFailureTx? || tx.ReserveTx? || tx.RecordTx?
    || tx.SaveTx? || tx.ForgetTx? || tx.BeatTx? || tx.BeatDoneTx?
  }

  lemma OffRowsIsOff(cfg: Config, db: EdgeDb, tx: Transaction)
    requires OffRows(tx)
    ensures var db' := Commit(cfg, db, tx); db'.rows == db.rows && db'.lastSequence == db.lastSequence && db'.sync == db.sync
  {
  }

  /** No transaction of the store, restart included, ever loses replay provenance. */
  lemma EveryTransactionKeepsProvenance(cfg: Config, db: EdgeDb, tx: Transaction)
    requires WellFormed(db) && ReplayProvenance(db)
    ensures ReplayProvenance(Commit(cfg, db, tx))
  {
    match tx {
      case InsertTx(event, status, now, disk) => InsertKeepsProvenance(cfg, db, event, status, now, disk);
      case PendingTx(s) => PendingKeepsProvenance(db, s);
      case CompleteTx(s, at) => CompletionKeepsProvenance(db, s, at);
      case AbandonTx(s, cause) => AbandonmentKeepsProvenance(db, s, cause);
      case FailTx(s, retryAt, cause, rejected) => FailureKeepsProvenance(db, s, retryAt, cause, rejected);
      case PurgeTx(cutoff) => PurgeKeepsProvenance(db, cutoff);
      case ContactTx(at) => ContactKeepsProvenance(db, at, "");
      case LostContactTx(cause) => ContactKeepsProvenance(db, 0, cause);
      case ReopenTx => ReopenKeepsProvenance(db);
      case _ => OffRowsIsOff(cfg, db, tx);
    }
  }

  /** Every transaction on the queue but an insert moves rows forward. */
  lemma ForwardTransactionEvolves(cfg: Config, db: EdgeDb, tx: Transaction)
    requires !tx.InsertTx? && !OffRows(tx) && !tx.ContactTx? && !tx.LostContactTx?
    ensures Evolves(db, Commit(cfg, db, tx))
  {
    match tx {
      case PendingTx(s) => PendingEvolves(db, s);
      case CompleteTx(s, at) => CompletionEvolves(db, s, at);
      case AbandonTx(s, cause) => AbandonmentEvolves(db, s, cause);
      case FailTx(s, retryAt, cause, rejected) => FailureEvolves(db, s, retryAt, cause, rejected);
      case PurgeTx(cutoff) => PurgeEvolves(db, cutoff);
      case ReopenTx => ReopenEvolves(db);
    }
  }

  /** Only an insert brings bytes: every other transaction moves rows forward. */
  lemma OtherTransactionsEvolve(cfg: Config, db: EdgeDb, tx: Transaction)
    requires !tx.InsertTx?
    ensures var db' := Commit(cfg, db, tx);
      ActiveBytes(db') <= ActiveBytes(db) && PriorityBytes(db', PRIORITY_NORMAL) <= PriorityBytes(db, PRIORITY_NORMAL)
  {
    if OffRows(tx) {
      OffRowsIsOff(cfg, db, tx);
    } else if !tx.ContactTx? && !tx.LostContactTx? {
      ForwardTransactionEvolves(cfg, db, tx);
      EvolvingFreesBytes(db, Commit(cfg, db, tx), PRIORITY_NORMAL);
    }
  }

  /** No transaction ever exceeds the payload capacity or the normal limit. */
  lemma EveryTransactionKeepsLimits(cfg: Config, db: EdgeDb, tx: Transaction)
    requires WellFormed(db) && WithinCapacity(cfg, db) && (tx.InsertTx? ==> tx.status.Active())
    ensures WithinCapacity(cfg, Commit(cfg, db, tx))
  {
    if tx.InsertTx? {
      InsertKeepsCapacity(cfg, db, tx.event, tx.status, tx.now, tx.disk);
    } else {
      OtherTransactionsEvolve(cfg, db, tx);
    }
  }

  /** Record s, from before some moment, is marked as a replay for as long as it is stored. */
  ghost predicate Marked(db: EdgeDb, s: nat) {
    s <= db.lastSequence && (s in db.rows ==> db.rows[s].replay)
  }

  lemma EvolvingKeepsMark(db: EdgeDb, db': EdgeDb, s: nat)
    requires Evolves(db, db') && Marked(db, s)
    ensures Marked(db', s)
  {
    if s in db'.rows {
      assert RowEvolves(db.rows[s], db'.rows[s]);
    }
  }

  lemma TransactionKeepsMark(cfg: Config, db: EdgeDb, tx: Transaction, s: nat)
    requires Marked(db, s)
    ensures Marked(Commit(cfg, db, tx), s)
  {
    if OffRows(tx) {
      OffRowsIsOff(cfg, db, tx);
    } else if !tx.InsertTx? && !tx.ContactTx? && !tx.LostContactTx? {
      ForwardTransactionEvolves(cfg, db, tx);
      EvolvingKeepsMark(db, Commit(cfg, db, tx), s);
    }
  }

  /** Sequences are handed out in order and never again. */
  ghost predicate Numbered(db: EdgeDb) {
    forall s | s in db.rows :: s <= db.lastSequence
  }

  lemma {:induction false} CommittedIsNumbered(cfg: Config, txs: seq<Transaction>)
    ensures Numbered(Committed(cfg, txs))
  {
    if txs != [] {
      CommittedIsNumbered(cfg, txs[..|txs| - 1]);
      TransactionKeepsNumbered(cfg, Committed(cfg, txs[..|txs| - 1]), txs[|txs| - 1]);
    }
  }

  lemma TransactionKeepsNumbered(cfg: Config, db: EdgeDb, tx: Transaction)
    requires Numbered(db)
    ensures Numbered(Commit(cfg, db, tx))
  {
    if OffRows(tx) {
      OffRowsIsOff(cfg, db, tx);
    } else if !tx.InsertTx? && !tx.ContactTx? && !tx.LostContactTx? {
      ForwardTransactionEvolves(cfg, db, tx);
    }
  }

  lemma MarkedAfter(cfg: Config, txs: seq<Transaction>, tx: Transaction, s: nat)
    requires Marked(Committed(cfg, txs), s)
    ensures Marked(Committed(cfg, txs + [tx]), s)
  {
    assert (txs + [tx])[..|txs|] == txs;
    TransactionKeepsMark(cfg, Committed(cfg, txs), tx, s);
  }

  lemma {:induction false} MarkedForever(cfg: Config, txs: seq<Transaction>, more: seq<Transaction>, s: nat)
    requires Marked(Committed(cfg, txs), s)
    ensures Marked(Committed(cfg, txs + more), s)
  {
    if more == [] {
      assert txs + more == txs;
    } else {
      var rest, last := more[..|more| - 1], more[|more| - 1];
      MarkedForever(cfg, txs, rest, s);
      MarkedAfter(cfg, txs + rest, last, s);
      assert txs + more == txs + rest + [last];
    }
  }

  /** A recorded upload failure, or a restart, that meets a record not yet settled. */
  ghost predicate Outage(db: EdgeDb, tx: Transaction, s: nat) {
    && s in db.rows && db.rows[s].status.Active()
    && (tx.ReopenTx? || (tx.FailTx? && MarkFailed(db, tx.s, tx.retryAt, tx.cause, tx.rejected).1 == Done))
  }

  lemma OutageMarks(cfg: Config, db: EdgeDb, tx: Transaction, s: nat)
    requires Outage(db, tx, s) && Numbered(db)
    ensures Marked(Commit(cfg, db, tx), s)
  {
    ForwardTransactionEvolves(cfg, db, tx);
    if tx.ReopenTx? {
      RestartMarksEverything(db);
    } else {
      FailureMarksEverything(db, tx.s, tx.retryAt, tx.cause, tx.rejected);
    }
  }

  /**
   One recorded upload failure, or one restart, marks every record not yet settled as a replay, for good, whatever
   is committed later.
   */
  lemma {:induction false} OutageMarksForever(cfg: Config, txs: seq<Transaction>, tx: Transaction, more: seq<Transaction>, s: nat)
    requires Outage(Committed(cfg, txs), tx, s)
    ensures s in Committed(cfg, txs + [tx] + more).rows ==> Committed(cfg, txs + [tx] + more).rows[s].replay
  {
    assert (txs + [tx])[..|txs|] == txs;
    CommittedIsNumbered(cfg, txs);
    OutageMarks(cfg, Committed(cfg, txs), tx, s);
    MarkedForever(cfg, txs + [tx], more, s);
  }

  // ---- Restart recovery ----

  ghost predicate OneUnresolved(incidents: map<nat, Incident>) {
    forall i, j | i in incidents && j in incidents ::
      (&& incidents[i].resolvedAt.None? && incidents[j].resolvedAt.None?
       && incidents[i].assetId == incidents[j].assetId && incidents[i].code == incidents[j].code) ==> i == j
  }

  /** A record carrying a critical code is already represented in the incident table. */
  ghost predicate Represented(incidents: map<nat, Incident>, s: nat, row: Row) {
    row.code.Some? ==> s in incidents || HasUnresolved(incidents, AssetOf(row.event.deviceId, row.code.value), row.code.value)
  }

  lemma InsertKeepsOneUnresolved(incidents: map<nat, Incident>, s: nat, incident: Incident)
    requires OneUnresolved(incidents)
    ensures OneUnresolved(InsertIncident(incidents, s, incident))
    ensures s in InsertIncident(incidents, s, incident)
         || HasUnresolved(InsertIncident(incidents, s, incident), incident.assetId, incident.code)
  {
    forall i | i in incidents && incidents[i].resolvedAt.None? && incidents[i].assetId == incident.assetId && incidents[i].code == incident.code
      ensures HasUnresolved(incidents, incident.assetId, incident.code)
    {
      assert Unresolved(incidents, i, incident.assetId, incident.code);
    }
  }

  lemma {:induction false} RebuildRepresents(rows: map<nat, Row>, incidents: map<nat, Incident>, n: nat)
    requires OneUnresolved(incidents)
    ensures OneUnresolved(RebuildIncidents(rows, incidents, n))
    ensures forall s | 1 <= s <= n && AwaitsIncident(rows, s) :: Represented(RebuildIncidents(rows, incidents, n), s, rows[s])
  {
    if n > 0 {
      RebuildRepresents(rows, incidents, n - 1);
      var before := RebuildIncidents(rows, incidents, n - 1);
      var after := RebuildIncidents(rows, incidents, n);
      if AwaitsIncident(rows, n) {
        InsertKeepsOneUnresolved(before, n, RebuiltIncident(rows[n]));
      }
      forall s | 1 <= s < n && AwaitsIncident(rows, s) ensures Represented(after, s, rows[s]) {
        GrowthKeepsRepresented(before, after, s, rows[s]);
      }
    }
  }

  lemma GrowthKeepsRepresented(before: map<nat, Incident>, after: map<nat, Incident>, s: nat, row: Row)
    requires forall i | i in before :: i in after && after[i] == before[i]
    requires Represented(before, s, row)
    ensures Represented(after, s, row)
  {
    if row.code.Some? && s !in before {
      var assetId := AssetOf(row.event.deviceId, row.code.value);
      var i :| i in before && Unresolved(before, i, assetId, row.code.value);
      assert Unresolved(after, i, assetId, row.code.value);
    }
  }

  lemma ReopenRepresents(db: EdgeDb)
    requires WellFormed(db) && OneUnresolved(db.incidents)
    ensures OneUnresolved(Reopen(db).incidents)
    ensures forall s | s in Reopen(db).rows && Reopen(db).rows[s].status.Active() ::
      Represented(Reopen(db).incidents, s, Reopen(db).rows[s])
  {
    var rows := SuppressCovered(RecoverInterrupted(db)).rows;
    RebuildRepresents(rows, db.incidents, db.lastSequence);
    forall s | s in rows && rows[s].status.Active() ensures Represented(Reopen(db).incidents, s, rows[s]) {
      assert WellFormedEvent(db.rows[s].event);
      assert rows[s].code.Some? ==> AwaitsIncident(rows, s);
    }
  }

  lemma ClearedMeansCovered(db: EdgeDb, s: nat)
    requires s in db.rows && Reopen(db).rows[s].code != db.rows[s].code
    ensures s !in db.incidents && exists i | i in db.incidents :: Covers(db.incidents, i, s, db.rows[s])
  {
    var interrupted := RecoverInterrupted(db).rows[s];
    assert CoveredByEarlier(db.incidents, s, interrupted);
    var i :| i in db.incidents && Covers(db.incidents, i, s, interrupted);
    assert Covers(db.incidents, i, s, db.rows[s]);
  }

  /** An incident of an earlier record for the same asset and code. */
  predicate EarlierIncident(incidents: map<nat, Incident>, i: nat, s: nat, e: Event) {
    i in incidents && i < s && e.code.Some? && incidents[i].code == e.code.value && incidents[i].assetId == AssetOf(e.deviceId, e.code.value)
  }

  /** A record carries the code it was queued with, or none because an earlier incident stands for it. */
  ghost predicate CodesCovered(db: EdgeDb) {
    forall s | s in db.rows && db.rows[s].code != db.rows[s].event.code ::
      db.rows[s].code.None? && exists i :: EarlierIncident(db.incidents, i, s, db.rows[s].event)
  }

  /** Rows keep their codes, and incidents what they are about. */
  ghost predicate CodesKept(db: EdgeDb, db': EdgeDb) {
    && (forall s | s in db'.rows :: s in db.rows && db'.rows[s].event == db.rows[s].event && db'.rows[s].code == db.rows[s].code)
    && (forall i | i in db.incidents :: i in db'.incidents && db'.incidents[i].assetId == db.incidents[i].assetId && db'.incidents[i].code == db.incidents[i].code)
  }

  lemma KeptCodesAreCovered(db: EdgeDb, db': EdgeDb)
    requires CodesCovered(db) && CodesKept(db, db')
    ensures CodesCovered(db')
  {
    forall s | s in db'.rows && db'.rows[s].code != db'.rows[s].event.code
      ensures db'.rows[s].code.None? && exists i :: EarlierIncident(db'.incidents, i, s, db'.rows[s].event)
    {
      var i :| EarlierIncident(db.incidents, i, s, db.rows[s].event);
      assert EarlierIncident(db'.incidents, i, s, db'.rows[s].event);
    }
  }

  lemma AbandonmentKeepsCodes(db: EdgeDb, s: nat, cause: string)
    ensures CodesKept(db, Abandon(db, s, cause).0)
  {
  }

  lemma FailureKeepsCodes(db: EdgeDb, s: nat, at: int, cause: string, rejected: bool)
    ensures CodesKept(db, MarkFailed(db, s, at, cause, rejected).0)
  {
  }

  lemma CompletionKeepsCodes(db: EdgeDb, s: nat, at: int)
    ensures CodesKept(db, CompleteUpload(db, s, at).0)
  {
  }

  lemma PendingKeepsCodes(db: EdgeDb, s: nat)
    ensures CodesKept(db, MarkPendingUpload(db, s).0)
  {
  }

  lemma OffRowsKeepsCodes(cfg: Config, db: EdgeDb, tx: Transaction)
    requires OffRows(tx)
    ensures CodesKept(db, Commit(cfg, db, tx))
  {
    if tx.ReserveTx? || tx.RecordTx? {
      AttemptKeepsCodes(cfg, db, tx);
    } else if tx.ResolveTx? {
      ResolvingKeepsCodes(db, tx.assetId, tx.code, tx.at);
    } else if tx.UploadFailureTx? {
      UploadFailureKeepsCodes(db, tx.s);
    } else {
      SmallTransactionKeepsCodes(cfg, db, tx);
    }
  }

  lemma AttemptKeepsCodes(cfg: Config, db: EdgeDb, tx: Transaction)
    requires tx.ReserveTx? || tx.RecordTx?
    ensures CodesKept(db, Commit(cfg, db, tx))
  {
  }

  lemma SmallTransactionKeepsCodes(cfg: Config, db: EdgeDb, tx: Transaction)
    requires tx.OpenTx? || tx.SaveTx? || tx.ForgetTx? || tx.BeatTx? || tx.BeatDoneTx?
    ensures CodesKept(db, Commit(cfg, db, tx))
  {
  }

  lemma ResolvingKeepsCodes(db: EdgeDb, assetId: string, code: Code, at: int)
    ensures CodesKept(db, ResolveIncident(db, assetId, code, at))
  {
  }

  lemma UploadFailureKeepsCodes(db: EdgeDb, s: nat)
    ensures CodesKept(db, RecordUploadFailure(db, s))
  {
  }

  lemma OthersKeepCodes(cfg: Config, db: EdgeDb, tx: Transaction)
    requires !tx.InsertTx? && !tx.ReopenTx?
    ensures CodesKept(db, Commit(cfg, db, tx))
  {
    match tx {
      case PendingTx(s) => PendingKeepsCodes(db, s);
      case CompleteTx(s, at) => CompletionKeepsCodes(db, s, at);
      case AbandonTx(s, cause) => AbandonmentKeepsCodes(db, s, cause);
      case FailTx(s, retryAt, cause, rejected) => FailureKeepsCodes(db, s, retryAt, cause, rejected);
      case PurgeTx(_) =>
      case ContactTx(_) =>
      case LostContactTx(_) =>
      case _ => OffRowsKeepsCodes(cfg, db, tx);
    }
  }

  lemma InsertCovers(cfg: Config, db: EdgeDb, e: Event, status: Status, now: int, disk: Disk)
    requires CodesCovered(db)
    ensures CodesCovered(Insert(cfg, db, e, status, now, disk).0)
  {
    var db' := Insert(cfg, db, e, status, now, disk).0;
    forall s | s in db'.rows && db'.rows[s].code != db'.rows[s].event.code
      ensures db'.rows[s].code.None? && exists i :: EarlierIncident(db'.incidents, i, s, db'.rows[s].event)
    {
      assert db'.rows[s] == db.rows[s] && db'.incidents == db.incidents;
    }
  }

  lemma ReopenCovers(db: EdgeDb)
    requires CodesCovered(db)
    ensures CodesCovered(Reopen(db))
  {
    var db' := Reopen(db);
    var suppressed := SuppressCovered(RecoverInterrupted(db));
    RebuildGrows(suppressed.rows, suppressed.incidents, suppressed.lastSequence);
    forall s | s in db'.rows && db'.rows[s].code != db'.rows[s].event.code
      ensures db'.rows[s].code.None? && exists i :: EarlierIncident(db'.incidents, i, s, db'.rows[s].event)
    {
      var i: nat;
      if db'.rows[s].code == db.rows[s].code {
        i :| EarlierIncident(db.incidents, i, s, db.rows[s].event);
      } else {
        ClearedMeansCovered(db, s);
        i :| i in db.incidents && Covers(db.incidents, i, s, db.rows[s]);
      }
      assert EarlierIncident(db'.incidents, i, s, db'.rows[s].event);
    }
  }

  lemma EveryTransactionKeepsCover(cfg: Config, db: EdgeDb, tx: Transaction)
    requires CodesCovered(db)
    ensures CodesCovered(Commit(cfg, db, tx))
  {
    match tx {
      case InsertTx(event, status, now, disk) => InsertCovers(cfg, db, event, status, now, disk);
      case ReopenTx => ReopenCovers(db);
      case _ =>
        OthersKeepCodes(cfg, db, tx);
        KeptCodesAreCovered(db, Commit(cfg, db, tx));
    }
  }

  /**
   After any transactions whatever, restarts included, a critical code is missing only where an earlier incident of
   its asset and code stands for the record.
   */
  lemma {:induction false} CodesCoveredForever(cfg: Config, txs: seq<Transaction>)
    ensures CodesCovered(Committed(cfg, txs))
  {
    if txs != [] {
      CodesCoveredForever(cfg, txs[..|txs| - 1]);
      EveryTransactionKeepsCover(cfg, Committed(cfg, txs[..|txs| - 1]), txs[|txs| - 1]);
    }
  }

  lemma NothingStranded(db: EdgeDb)
    ensures Reopen(db).rows.Keys == db.rows.Keys
    ensures forall s | s in db.rows ::
      Reopen(db).rows[s].status == if db.rows[s].status.Active() then PendingUpload else db.rows[s].status
  {
  }

  lemma InterruptionIdempotent(db: EdgeDb)
    ensures RecoverInterrupted(RecoverInterrupted(db)) == RecoverInterrupted(db)
  {
    var once := RecoverInterrupted(db);
    assert RecoverInterrupted(once).rows == once.rows;
  }

  /** The suppressing update commits on its own: repeating recovery from there ends in the same database. */
  lemma {:induction false} CrashDuringRecovery(db: EdgeDb)
    ensures Reopen(RecoverInterrupted(db)) == Reopen(db)
    ensures Reopen(SuppressCovered(RecoverInterrupted(db))) == Reopen(db)
  {
    InterruptionIdempotent(db);
    SuppressionIsRecovered(RecoverInterrupted(db));
    SuppressionIdempotent(RecoverInterrupted(db));
  }

  /** Suppressing codes leaves nothing for the first statement to do again. */
  lemma SuppressionIsRecovered(once: EdgeDb)
    requires RecoverInterrupted(once) == once
    ensures RecoverInterrupted(SuppressCovered(once)) == SuppressCovered(once)
  {
    var suppressed := SuppressCovered(once);
    forall s | s in once.rows ensures RecoverRow(suppressed.rows[s]) == suppressed.rows[s] {
      assert RecoverInterrupted(once).rows[s] == once.rows[s];
    }
    assert RecoverInterrupted(suppressed).rows == suppressed.rows;
    assert FlaggedActive(suppressed.rows) == FlaggedActive(once.rows) by {
      forall s | s in once.rows
        ensures suppressed.rows[s].status == once.rows[s].status && suppressed.rows[s].replay == once.rows[s].replay
      {
      }
    }
  }

  lemma SuppressionIdempotent(db: EdgeDb)
    ensures SuppressCovered(SuppressCovered(db)) == SuppressCovered(db)
  {
    assert SuppressCovered(SuppressCovered(db)).rows == SuppressCovered(db).rows;
  }
}
