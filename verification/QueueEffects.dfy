/** What the queue's own transactions do, said over rows and byte counts: admission, insertion, release, purge, restart. */
module QueueEffects {
  import opened Prelude
  import opened EdgeModel
  import opened QueueLaws

  // ---- Byte counts ----

  /** A record counts with its payload while it is still owed. */
  function Weight(rows: map<nat, Row>, s: nat): nat {
    if s in rows && (rows[s].status == Persisted || rows[s].status == PendingUpload || rows[s].status == Uploaded)
    then |rows[s].event.payload| else 0
  }

  lemma {:induction false} TotalAfterOne(n: nat, f: nat -> nat, g: nat -> nat, s: nat)
    requires 1 <= s <= n && forall i | 1 <= i <= n && i != s :: g(i) == f(i)
    ensures Total(n, g) + f(s) == Total(n, f) + g(s)
  {
    if s < n {
      TotalAfterOne(n - 1, f, g, s);
    } else {
      TotalEqual(n - 1, f, g);
    }
  }

  lemma {:induction false} TotalNone(n: nat, f: nat -> nat)
    requires forall i | 1 <= i <= n :: f(i) == 0
    ensures Total(n, f) == 0
  {
    if n > 0 {
      TotalNone(n - 1, f);
    }
  }

  /**
   The byte count is the sum of these weights: nothing for an empty table, and changed by one record's weight when
   one record changes.
   */
  lemma BytesAreWeights(db: EdgeDb, db': EdgeDb, s: nat)
    requires 1 <= s <= db.lastSequence && db'.lastSequence == db.lastSequence
    requires forall t: nat | t != s :: Weight(db'.rows, t) == Weight(db.rows, t)
    ensures ActiveBytes(db') + Weight(db.rows, s) == ActiveBytes(db) + Weight(db'.rows, s)
    ensures db.rows == map[] ==> ActiveBytes(db) == 0
  {
    forall t: nat ensures ActiveWeight(db.rows)(t) == Weight(db.rows, t) && ActiveWeight(db'.rows)(t) == Weight(db'.rows, t) {
    }
    TotalAfterOne(db.lastSequence, ActiveWeight(db.rows), ActiveWeight(db'.rows), s);
    if db.rows == map[] {
      TotalNone(db.lastSequence, ActiveWeight(db.rows));
    }
  }

  // ---- Admission ----

  predicate Storable(e: Event) {
    && 1 <= |e.deviceId| <= 256 && 1 <= |e.topic| <= 1024 && 1 <= |e.payload|
    && (e.assetType == "smart_meter" || e.assetType == "battery_bms" || e.assetType == "solar_inverter")
    && e.eventAt.Some? && e.receivedAt.Some? && 0 <= e.priority <= 1
  }

  /** Twice what the write needs on disk. */
  function Headroom(cfg: Config, e: Event): int {
    2 * |e.payload| + 2 * |e.deviceId| + 2 * |e.topic| + 128 + 4 * cfg.pageSize
  }

  /** Room on the filesystem beyond the operator's reserve, if one is configured. */
  predicate FilesystemFits(cfg: Config, e: Event, disk: Disk) {
    cfg.minFilesystemFreeBytes > 0 ==> disk.freeBytes >= cfg.minFilesystemFreeBytes && disk.freeBytes >= cfg.minFilesystemFreeBytes + Headroom(cfg, e)
  }

  predicate DiskFits(cfg: Config, e: Event, disk: Disk) {
    disk.usedBytes < cfg.maxStorageBytes && disk.usedBytes + Headroom(cfg, e) <= cfg.maxStorageBytes
  }

  /** Undelivered bytes with this event within 65 percent of the storage; a normal event leaves the critical reserve free. */
  predicate PayloadFits(cfg: Config, db: EdgeDb, e: Event) {
    var capacity := cfg.maxStorageBytes * 65 / 100;
    && ActiveBytes(db) + |e.payload| <= capacity
    && (e.priority == 0 ==> ActiveBytes(db) + |e.payload| <= capacity * (100 - cfg.criticalReservePercent) / 100)
  }

  predicate Admitted(cfg: Config, db: EdgeDb, e: Event, disk: Disk) {
    Storable(e) && |e.payload| <= cfg.maxEventBytes && FilesystemFits(cfg, e, disk) && DiskFits(cfg, e, disk) && PayloadFits(cfg, db, e)
  }

  lemma RefusedUnlessAdmitted(cfg: Config, db: EdgeDb, e: Event, disk: Disk)
    ensures Refusal(cfg, db, e, disk).None? <==> Admitted(cfg, db, e, disk)
  {
  }

  /** The reason given is the first that applies. */
  lemma RefusalReason(cfg: Config, db: EdgeDb, e: Event, disk: Disk)
    requires !Admitted(cfg, db, e, disk)
    ensures Refusal(cfg, db, e, disk) == Some(
      if !Storable(e) then InvalidEvent
      else if |e.payload| > cfg.maxEventBytes then EventTooLarge
      else if !FilesystemFits(cfg, e, disk) then FilesystemReserve
      else if !DiskFits(cfg, e, disk) || ActiveBytes(db) + |e.payload| > cfg.maxStorageBytes * 65 / 100 then StorageCapacity
      else CriticalReserve)
  {
  }

  /** The row of a record just queued: live unless an outage is being replayed. */
  predicate JustQueued(row: Row, e: Event, status: Status, now: int, replay: bool) {
    && row.event == e && row.status == status && row.persistedAt == now && row.replay == replay
    && row.code == e.code && row.value == e.value
    && row.attempts == 0 && row.rejections == 0 && row.uploadedAt.None? && row.nextAttempt.None? && row.lastError.None?
  }

  /** An admitted event is one new row under the next sequence; a refused one leaves everything as it was. */
  lemma InsertWrites(cfg: Config, db: EdgeDb, e: Event, status: Status, now: int, disk: Disk)
    ensures var (db', r) := Insert(cfg, db, e, status, now, disk);
      var s := db.lastSequence + 1;
      && (r.Ok? <==> Admitted(cfg, db, e, disk))
      && (r.Err? ==> db' == db)
      && (r.Ok? ==> r.value == s && db' == db.(rows := db'.rows, lastSequence := s))
      && (r.Ok? ==> s in db'.rows && db'.rows == db.rows[s := db'.rows[s]] && JustQueued(db'.rows[s], e, status, now, db.sync.replayMode))
  {
    RefusedUnlessAdmitted(cfg, db, e, disk);
  }

  /** Releasing a record for upload changes its status and nothing else, and only of a persisted record. */
  lemma ReleaseWrites(db: EdgeDb, s: nat)
    ensures var (db', outcome) := MarkPendingUpload(db, s);
      && (outcome == Done <==> s in db.rows && (db.rows[s].status == Persisted || db.rows[s].status == PendingUpload))
      && (s in db.rows && db.rows[s].status == Persisted ==>
            db' == db.(rows := db.rows[s := db.rows[s].(status := PendingUpload, nextAttempt := None, lastError := None)]))
      && (!(s in db.rows && db.rows[s].status == Persisted) ==> db' == db)
  {
  }

  /** Purging deletes exactly the settled rows persisted before the cutoff. */
  lemma PurgeDeletes(db: EdgeDb, cutoff: int)
    ensures var db' := Purge(db, cutoff);
      && db' == db.(rows := db'.rows)
      && (forall s | s in db'.rows :: s in db.rows && db'.rows[s] == db.rows[s])
      && (forall s | s in db.rows ::
            s !in db'.rows <==> (db.rows[s].status == Acknowledged || db.rows[s].status == Abandoned || db.rows[s].status == Expired)
                                && db.rows[s].persistedAt < cutoff)
  {
  }

  // ---- Settling one record ----

  predicate StatusOf(db: EdgeDb, s: nat, status: Status) {
    s in db.rows && db.rows[s].status == status
  }

  /** A record is completed from pending, or again once acknowledged; nothing else is touched. */
  lemma CompletedExactly(db: EdgeDb, s: nat, at: int)
    ensures var (db', outcome) := CompleteUpload(db, s, at);
      && (outcome == Done <==> StatusOf(db, s, PendingUpload) || StatusOf(db, s, Uploaded) || StatusOf(db, s, Acknowledged))
      && (outcome == NotFound <==> s !in db.rows)
      && (outcome != Done ==> db' == db)
      && (StatusOf(db, s, Acknowledged) ==> db'.rows == db.rows)
  {
  }

  /** A record is given up from pending only; giving it up again changes nothing and counts nothing. */
  lemma AbandonedExactly(db: EdgeDb, s: nat, cause: string)
    ensures var (db', outcome) := Abandon(db, s, cause);
      && (outcome == Done <==> StatusOf(db, s, PendingUpload) || StatusOf(db, s, Abandoned))
      && (outcome == NotFound <==> s !in db.rows)
      && (!StatusOf(db, s, PendingUpload) ==> db' == db)
  {
  }

  /** A failure is recorded for a pending record, with a text of one to 2048 bytes; otherwise nothing is. */
  lemma FailureRecordedExactly(db: EdgeDb, s: nat, retryAt: int, cause: string, rejected: bool)
    ensures var (db', outcome) := MarkFailed(db, s, retryAt, cause, rejected);
      && (outcome == Done <==> 1 <= |cause| <= 2048 && (StatusOf(db, s, PendingUpload) || StatusOf(db, s, Uploaded)))
      && (outcome == BadArgument <==> !(1 <= |cause| <= 2048))
      && (outcome != Done ==> db' == db)
  {
  }

  // ---- What is reported ----

  /** Five states, each for its own reason and none of the reasons before it. */
  lemma StateReportedExactly(cfg: Config, db: EdgeDb, disk: Disk)
    ensures var (state, bytes, capacity) := (StateOf(cfg, db, disk), ActiveBytes(db), cfg.maxStorageBytes * 65 / 100);
      var low := cfg.minFilesystemFreeBytes > 0 && disk.freeBytes < cfg.minFilesystemFreeBytes;
      var full := disk.usedBytes >= cfg.maxStorageBytes || bytes >= capacity;
      var reserved := bytes >= capacity * (100 - cfg.criticalReservePercent) / 100;
      var warned := disk.usedBytes * 100 >= cfg.maxStorageBytes * cfg.warningPercent || bytes * 100 >= capacity * cfg.warningPercent;
      && (state == FilesystemLow <==> low)
      && (state == Full <==> !low && full)
      && (state == NormalSuspended <==> !low && !full && reserved)
      && (state == Warning <==> !low && !full && !reserved && warned)
      && (state == Healthy <==> !low && !full && !reserved && !warned)
  {
  }

  // ---- What is ready ----

  /** Ready: pending, due, and with nothing of its device queued earlier and still owed. */
  predicate ReadyNow(rows: map<nat, Row>, s: nat, now: int) {
    && s in rows && rows[s].status == PendingUpload
    && (rows[s].nextAttempt.Some? ==> rows[s].nextAttempt.value <= now)
    && forall e | e in rows && e < s && rows[e].event.deviceId == rows[s].event.deviceId ::
         rows[e].status != Persisted && rows[e].status != PendingUpload && rows[e].status != Uploaded
  }

  lemma EligibleIsReady(rows: map<nat, Row>, s: nat, now: int)
    ensures Eligible(rows, s, now) <==> ReadyNow(rows, s, now)
  {
  }

  // ---- Restart ----

  /**
   What an earlier incident must be to stand for a record: of its asset and code, opened for an earlier record, and
   not over when the record was measured.
   */
  predicate StandsFor(incidents: map<nat, Incident>, i: nat, s: nat, row: Row) {
    && i in incidents && i < s && row.code.Some? && row.event.eventAt.Some?
    && incidents[i].code == row.code.value
    && incidents[i].assetId == (if row.code == Some(SiteOutage) then "site" else row.event.deviceId)
    && (incidents[i].resolvedAt.None? || row.event.eventAt.value <= incidents[i].resolvedAt.value)
  }

  /**
   On restart every record still owed is pending and marked; a code is dropped exactly where an earlier incident
   stands for the record and it has none of its own.
   */
  lemma RestartRows(db: EdgeDb, s: nat)
    requires s in db.rows
    ensures s in Reopen(db).rows
    ensures var (row, row') := (db.rows[s], Reopen(db).rows[s]);
      var owed := row.status == Persisted || row.status == PendingUpload || row.status == Uploaded;
      var dropped := s !in db.incidents && exists i :: StandsFor(db.incidents, i, s, row);
      && row' == row.(status := row'.status, replay := row'.replay, code := row'.code, value := row'.value)
      && row'.status == (if owed then PendingUpload else row.status)
      && row'.replay == (row.replay || owed)
      && (dropped ==> row'.code.None? && row'.value.None?)
      && (!dropped ==> row'.code == row.code && row'.value == row.value)
  {
    var interrupted := RecoverInterrupted(db).rows[s];
    if exists i :: StandsFor(db.incidents, i, s, db.rows[s]) {
      var i :| StandsFor(db.incidents, i, s, db.rows[s]);
      assert Covers(db.incidents, i, s, interrupted);
    }
    if CoveredByEarlier(db.incidents, s, interrupted) {
      var i :| i in db.incidents && Covers(db.incidents, i, s, interrupted);
      assert StandsFor(db.incidents, i, s, db.rows[s]);
    }
  }

  /** And nothing else of the database moves but incidents, which are only added, one for each uncovered record with a code. */
  lemma RestartElsewhere(db: EdgeDb)
    ensures var db' := Reopen(db);
      && db'.rows.Keys == db.rows.Keys && db'.lastSequence == db.lastSequence
      && db'.sync == db.sync.(replayMode := db'.sync.replayMode)
      && (db'.sync.replayMode <==> exists s :: s in db'.rows && db'.rows[s].status == PendingUpload)
      && db'.attempts == db.attempts && db'.debounce == db.debounce
      && db'.heartbeats == db.heartbeats && db'.lastHeartbeat == db.lastHeartbeat
      && (forall i | i in db.incidents :: i in db'.incidents && db'.incidents[i] == db.incidents[i])
  {
    var once := RecoverInterrupted(db);
    var suppressed := SuppressCovered(once);
    RebuildGrows(suppressed.rows, suppressed.incidents, suppressed.lastSequence);
    NothingStranded(db);
  }

  /** An incident untouched by delivery, resolution or SMS. */
  predicate Unheard(i: Incident) {
    i.resolvedAt.None? && i.deliveredAt.None? && i.smsSentAt.None? && i.uploadFailures == 0 && i.smsAttempts == 0 && i.nextSmsAttempt.None?
  }

  /**
   An incident that a restart adds is that of a record still owed and still carrying its code, as it was measured
   and queued.
   */
  lemma RestartIncidents(db: EdgeDb, s: nat)
    requires s in Reopen(db).incidents && s !in db.incidents
    ensures s in Reopen(db).rows && s in db.rows
    ensures var (row, i) := (Reopen(db).rows[s], Reopen(db).incidents[s]);
      && row.status == PendingUpload && row.code.Some? && row.event.eventAt.Some?
      && i.code == row.code.value && i.assetId == (if i.code == SiteOutage then "site" else row.event.deviceId)
      && i.temperature == row.value && i.eventAt == row.event.eventAt.value && i.openedAt == row.persistedAt && Unheard(i)
  {
    var suppressed := SuppressCovered(RecoverInterrupted(db));
    RebuildGrows(suppressed.rows, suppressed.incidents, suppressed.lastSequence);
    NothingStranded(db);
  }
}
