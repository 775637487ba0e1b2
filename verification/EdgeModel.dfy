/**
 The edge agent's durable database as a value, and every SQL transaction of the
 queue and of the fallback tables as a function from database to database.

 The store accepts one site identity for its whole life, so the event key
 "edge:<site>:<sequence>" is determined by the sequence; incidents and attempts
 are keyed by it. Times are integer milliseconds and strings are byte strings.
 */
module EdgeModel {
  import opened Prelude

  const MAX_DEVICE_ID_BYTES := 256
  const MAX_TOPIC_BYTES := 1024
  const MAX_CAUSE_BYTES := 2048

  datatype Status = Persisted | PendingUpload | Uploaded | Acknowledged | Expired | Abandoned {
    /** Still owed to the platform: counted in the queue, blocking its device. */
    predicate Active() {
      Persisted? || PendingUpload? || Uploaded?
    }
  }

  datatype Code = BatteryOverheat | InverterFailure | TamperDetected | SiteOutage

  const PRIORITY_NORMAL := 0
  const PRIORITY_CRITICAL := 1

  /** What a collector hands to the queue. A missing timestamp is the zero time. */
  datatype Event = Event(
    deviceId: string,
    assetType: string,
    topic: string,
    payload: string,
    priority: int,
    eventAt: Option<int>,
    receivedAt: Option<int>,
    code: Option<Code>,
    value: Option<real>)

  datatype Row = Row(
    event: Event,
    persistedAt: int,
    uploadedAt: Option<int>,
    status: Status,
    attempts: nat,
    rejections: nat,
    replay: bool,
    nextAttempt: Option<int>,
    lastError: Option<string>,
    code: Option<Code>,
    value: Option<real>)

  datatype Incident = Incident(
    assetId: string,
    code: Code,
    temperature: Option<real>,
    eventAt: int,
    openedAt: int,
    resolvedAt: Option<int>,
    deliveredAt: Option<int>,
    smsSentAt: Option<int>,
    uploadFailures: nat,
    smsAttempts: nat,
    nextSmsAttempt: Option<int>)

  datatype Attempt = Attempt(key: nat, at: int, succeeded: Option<bool>)

  datatype SyncState = SyncState(
    lastSuccess: Option<int>,
    lastFailure: Option<string>,
    replayMode: bool,
    abandonedCount: nat)

  type ConditionKey = (string, Code)

  datatype HeartbeatAttempt = HeartbeatAttempt(sequence: nat, at: int, succeeded: Option<bool>)

  datatype EdgeDb = EdgeDb(
    rows: map<nat, Row>,
    lastSequence: nat,
    sync: SyncState,
    incidents: map<nat, Incident>,
    attempts: seq<Attempt>,
    debounce: map<ConditionKey, int>,
    heartbeats: seq<HeartbeatAttempt>,
    lastHeartbeat: nat)

  const EMPTY_DB := EdgeDb(map[], 0, SyncState(None, None, false, 0), map[], [], map[], [], 0)

  // ---- Configuration and capacity arithmetic ----

  datatype Config = Config(
    maxStorageBytes: int,
    maxEventBytes: int,
    warningPercent: int,
    criticalReservePercent: int,
    minFilesystemFreeBytes: int,
    pageSize: nat)
  {
    predicate Valid() {
      && 0x10_0000 <= maxStorageBytes
      && 1 <= maxEventBytes <= maxStorageBytes * 5 / 100
      && 1 <= warningPercent < 100
      && 1 <= criticalReservePercent < 100
      && warningPercent < 100 - criticalReservePercent
      && 0 <= minFilesystemFreeBytes
    }

    function PayloadCapacity(): int {
      maxStorageBytes * 65 / 100
    }

    function NormalAdmissionLimit(): int {
      PayloadCapacity() * (100 - criticalReservePercent) / 100
    }

    function WriteHeadroom(e: Event): int {
      2 * (|e.payload| + |e.deviceId| + |e.topic| + 64 + 2 * pageSize)
    }
  }

  /** What the filesystem reports at one moment. */
  datatype Disk = Disk(freeBytes: int, usedBytes: int)

  // ---- Aggregates over queue_events ----

  function ActiveWeight(rows: map<nat, Row>): nat -> nat {
    i => if i in rows && rows[i].status.Active() then |rows[i].event.payload| else 0
  }

  function PriorityWeight(rows: map<nat, Row>, priority: int): nat -> nat {
    i => if i in rows && rows[i].status.Active() && rows[i].event.priority == priority
         then |rows[i].event.payload| else 0
  }

  function ActiveBytes(db: EdgeDb): nat {
    Total(db.lastSequence, ActiveWeight(db.rows))
  }

  function PriorityBytes(db: EdgeDb, priority: int): nat {
    Total(db.lastSequence, PriorityWeight(db.rows, priority))
  }

  predicate FlaggedActive(rows: map<nat, Row>) {
    exists s | s in rows :: rows[s].status.Active() && rows[s].replay
  }

  // ---- Insertion ----

  datatype QueueError = InvalidEvent | EventTooLarge | FilesystemReserve | StorageCapacity | CriticalReserve

  predicate ValidAssetType(t: string) {
    t == "smart_meter" || t == "battery_bms" || t == "solar_inverter"
  }

  predicate WellFormedEvent(e: Event) {
    && e.deviceId != "" && e.topic != "" && e.payload != ""
    && ValidAssetType(e.assetType)
    && e.eventAt.Some? && e.receivedAt.Some?
    && |e.deviceId| <= MAX_DEVICE_ID_BYTES && |e.topic| <= MAX_TOPIC_BYTES
    && (e.priority == PRIORITY_NORMAL || e.priority == PRIORITY_CRITICAL)
  }

  /** The filesystem and disk checks made before the insert transaction starts. */
  function CheckAdmission(cfg: Config, e: Event, disk: Disk): Option<QueueError> {
    var headroom := cfg.WriteHeadroom(e);
    if cfg.minFilesystemFreeBytes > 0 &&
       (disk.freeBytes < cfg.minFilesystemFreeBytes || headroom > disk.freeBytes - cfg.minFilesystemFreeBytes)
    then Some(FilesystemReserve)
    else if disk.usedBytes >= cfg.maxStorageBytes || headroom > cfg.maxStorageBytes - disk.usedBytes
    then Some(StorageCapacity)
    else None
  }

  /** Why an insert is refused, if it is. */
  function Refusal(cfg: Config, db: EdgeDb, e: Event, disk: Disk): Option<QueueError> {
    if !WellFormedEvent(e) then Some(InvalidEvent)
    else if |e.payload| > cfg.maxEventBytes then Some(EventTooLarge)
    else if CheckAdmission(cfg, e, disk).Some? then CheckAdmission(cfg, e, disk)
    else if |e.payload| > cfg.PayloadCapacity() - ActiveBytes(db) then Some(StorageCapacity)
    else if e.priority == PRIORITY_NORMAL && |e.payload| > cfg.NormalAdmissionLimit() - ActiveBytes(db)
    then Some(CriticalReserve)
    else None
  }

  function NewRow(db: EdgeDb, e: Event, status: Status, now: int): Row {
    Row(e, now, None, status, 0, 0, db.sync.replayMode, None, None, e.code, e.value)
  }

  function Insert(cfg: Config, db: EdgeDb, e: Event, status: Status, now: int, disk: Disk)
    : (EdgeDb, Result<nat, QueueError>)
  {
    match Refusal(cfg, db, e, disk)
    case Some(error) => (db, Err(error))
    case None =>
      var s := db.lastSequence + 1;
      (db.(rows := db.rows[s := NewRow(db, e, status, now)], lastSequence := s), Ok(s))
  }

  // ---- Lifecycle transitions of one record ----

  datatype Outcome = Done | NotFound | InvalidTransition | BadArgument

  function Transition(db: EdgeDb, s: nat, from: Status, to: Status): (EdgeDb, Outcome) {
    if s !in db.rows then (db, NotFound)
    else if db.rows[s].status == from then
      (db.(rows := db.rows[s := db.rows[s].(status := to, nextAttempt := None, lastError := None)]), Done)
    else if db.rows[s].status == to then (db, Done)
    else (db, InvalidTransition)
  }

  function MarkPendingUpload(db: EdgeDb, s: nat): (EdgeDb, Outcome) {
    Transition(db, s, Persisted, PendingUpload)
  }

  function RefreshReplayMode(sync: SyncState, rows: map<nat, Row>): SyncState {
    sync.(replayMode := FlaggedActive(rows))
  }

  /** Acknowledgement, incident bookkeeping and sync state commit together. */
  function CompleteUpload(db: EdgeDb, s: nat, at: int): (EdgeDb, Outcome) {
    if s !in db.rows then (db, NotFound)
    else
      var row := db.rows[s];
      if row.status !in {PendingUpload, Uploaded, Acknowledged} then (db, InvalidTransition)
      else
        var rows := if row.status == Acknowledged then db.rows
                    else db.rows[s := row.(status := Acknowledged, uploadedAt := Some(at), nextAttempt := None, lastError := None)];
        var incidents := if s in db.incidents then db.incidents[s := db.incidents[s].(deliveredAt := Some(at))]
                         else db.incidents;
        var sync := RefreshReplayMode(db.sync.(lastSuccess := Some(at), lastFailure := None), rows);
        (db.(rows := rows, incidents := incidents, sync := sync), Done)
  }

  function Truncate(cause: string): string {
    if |cause| > MAX_CAUSE_BYTES then cause[..MAX_CAUSE_BYTES] else cause
  }

  function Abandon(db: EdgeDb, s: nat, cause: string): (EdgeDb, Outcome) {
    if s !in db.rows then (db, NotFound)
    else
      var row := db.rows[s];
      if row.status == PendingUpload then
        (db.(rows := db.rows[s := row.(status := Abandoned, attempts := row.attempts + 1, rejections := row.rejections + 1,
                                       nextAttempt := None, lastError := Some(Truncate(cause)))],
             sync := db.sync.(abandonedCount := db.sync.abandonedCount + 1)), Done)
      else if row.status == Abandoned then (db, Done)
      else (db, InvalidTransition)
  }

  function FlagActive(rows: map<nat, Row>): map<nat, Row> {
    map s | s in rows :: if rows[s].status.Active() then rows[s].(replay := true) else rows[s]
  }

  /** One failed or rejected upload of one record: it is rescheduled, and the outage marks the whole queue. */
  function MarkFailed(db: EdgeDb, s: nat, retryAt: int, cause: string, rejected: bool): (EdgeDb, Outcome) {
    if cause == "" || |cause| > MAX_CAUSE_BYTES then (db, BadArgument)
    else if s !in db.rows || db.rows[s].status !in {PendingUpload, Uploaded} then (db, InvalidTransition)
    else
      var row := db.rows[s];
      var failed := row.(status := PendingUpload, attempts := row.attempts + 1,
                         rejections := row.rejections + (if rejected then 1 else 0),
                         replay := true, nextAttempt := Some(retryAt), lastError := Some(cause));
      (db.(rows := FlagActive(db.rows[s := failed]),
           sync := db.sync.(lastFailure := Some(cause), replayMode := true)), Done)
  }

  function Purgeable(row: Row, cutoff: int): bool {
    !row.status.Active() && row.persistedAt < cutoff
  }

  function Purge(db: EdgeDb, cutoff: int): EdgeDb {
    db.(rows := map s | s in db.rows && !Purgeable(db.rows[s], cutoff) :: db.rows[s])
  }

  // ---- Contact with the ingestion service ----

  function ContactSuccess(db: EdgeDb, at: int): EdgeDb {
    db.(sync := RefreshReplayMode(db.sync.(lastSuccess := Some(at), lastFailure := None), db.rows))
  }

  function ContactFailure(db: EdgeDb, cause: string): EdgeDb {
    db.(sync := db.sync.(lastFailure := Some(cause), replayMode := true))
  }

  // ---- Incidents ----

  function AssetOf(deviceId: string, code: Code): string {
    if code == SiteOutage then "site" else deviceId
  }

  predicate Unresolved(incidents: map<nat, Incident>, s: nat, assetId: string, code: Code) {
    s in incidents && incidents[s].assetId == assetId && incidents[s].code == code && incidents[s].resolvedAt.None?
  }

  predicate HasUnresolved(incidents: map<nat, Incident>, assetId: string, code: Code) {
    exists s | s in incidents :: Unresolved(incidents, s, assetId, code)
  }

  /** INSERT OR IGNORE under the primary key and the one-active-incident index. */
  function InsertIncident(incidents: map<nat, Incident>, s: nat, incident: Incident): map<nat, Incident> {
    if s in incidents || (incident.resolvedAt.None? && HasUnresolved(incidents, incident.assetId, incident.code))
    then incidents
    else incidents[s := incident]
  }

  function NewIncident(assetId: string, code: Code, temperature: Option<real>, eventAt: int, openedAt: int): Incident {
    Incident(assetId, code, temperature, eventAt, openedAt, None, None, None, 0, 0, None)
  }

  function ResolveIncident(db: EdgeDb, assetId: string, code: Code, at: int): EdgeDb {
    db.(incidents := map s | s in db.incidents ::
      if Unresolved(db.incidents, s, assetId, code) then db.incidents[s].(resolvedAt := Some(at)) else db.incidents[s])
  }

  function RecordUploadFailure(db: EdgeDb, s: nat): EdgeDb {
    if s in db.incidents && db.incidents[s].resolvedAt.None? && db.incidents[s].deliveredAt.None?
    then db.(incidents := db.incidents[s := db.incidents[s].(uploadFailures := db.incidents[s].uploadFailures + 1)])
    else db
  }

  // ---- Restart ----

  function RecoverRow(row: Row): Row {
    if row.status.Active() then row.(status := PendingUpload, replay := true) else row
  }

  function RecoverInterrupted(db: EdgeDb): EdgeDb {
    var rows := map s | s in db.rows :: RecoverRow(db.rows[s]);
    db.(rows := rows, sync := RefreshReplayMode(db.sync, rows))
  }

  /** Incident i is earlier than record s and was not over when s was measured. */
  predicate Covers(incidents: map<nat, Incident>, i: nat, s: nat, row: Row) {
    && i in incidents && i < s && row.code.Some? && row.event.eventAt.Some?
    && incidents[i].code == row.code.value
    && incidents[i].assetId == AssetOf(row.event.deviceId, row.code.value)
    && (incidents[i].resolvedAt.None? || incidents[i].resolvedAt.value >= row.event.eventAt.value)
  }

  predicate CoveredByEarlier(incidents: map<nat, Incident>, s: nat, row: Row) {
    exists i | i in incidents :: Covers(incidents, i, s, row)
  }

  function SuppressRow(incidents: map<nat, Incident>, s: nat, row: Row): Row {
    if s !in incidents && CoveredByEarlier(incidents, s, row) then row.(code := None, value := None) else row
  }

  function SuppressCovered(db: EdgeDb): EdgeDb {
    db.(rows := map s | s in db.rows :: SuppressRow(db.incidents, s, db.rows[s]))
  }

  predicate AwaitsIncident(rows: map<nat, Row>, s: nat) {
    s in rows && rows[s].status.Active() && rows[s].code.Some? && rows[s].event.eventAt.Some?
  }

  function RebuiltIncident(row: Row): Incident
    requires row.code.Some? && row.event.eventAt.Some?
  {
    NewIncident(AssetOf(row.event.deviceId, row.code.value), row.code.value, row.value, row.event.eventAt.value, row.persistedAt)
  }

  /** The incident table after the recovering INSERT OR IGNORE ... SELECT has visited records 1..n. */
  function RebuildIncidents(rows: map<nat, Row>, incidents: map<nat, Incident>, n: nat): map<nat, Incident> {
    if n == 0 then incidents
    else
      var before := RebuildIncidents(rows, incidents, n - 1);
      if AwaitsIncident(rows, n) then InsertIncident(before, n, RebuiltIncident(rows[n])) else before
  }

  function RecoverIncidents(db: EdgeDb): EdgeDb {
    var suppressed := SuppressCovered(db);
    suppressed.(incidents := RebuildIncidents(suppressed.rows, suppressed.incidents, suppressed.lastSequence))
  }

  /** What opening the store does to a database left behind by a crash. */
  function Reopen(db: EdgeDb): EdgeDb {
    RecoverIncidents(RecoverInterrupted(db))
  }

  // ---- The upload batch ----

  datatype Record = Record(sequence: nat, row: Row)

  /** No earlier record of the same device is still owed. */
  predicate HeadOfLine(rows: map<nat, Row>, s: nat, deviceId: string) {
    forall e | e in rows :: e < s && rows[e].event.deviceId == deviceId ==> !rows[e].status.Active()
  }

  predicate Ungated(row: Row, now: int) {
    row.status == PendingUpload && (row.nextAttempt.None? || row.nextAttempt.value <= now)
  }

  predicate Eligible(rows: map<nat, Row>, s: nat, now: int) {
    s in rows && Ungated(rows[s], now) && HeadOfLine(rows, s, rows[s].event.deviceId)
  }

  /** The rows of the ready query with sequence at most n, in sequence order. */
  function EligibleUpTo(rows: map<nat, Row>, now: int, n: nat): seq<Record> {
    if n == 0 then []
    else EligibleUpTo(rows, now, n - 1) + (if Eligible(rows, n, now) then [Record(n, rows[n])] else [])
  }

  function PayloadBytes(records: seq<Record>): nat {
    if records == [] then 0 else PayloadBytes(records[..|records| - 1]) + |records[|records| - 1].row.event.payload|
  }

  // ---- SMS attempts for incidents ----

  const HOUR := 3_600_000
  const DAY := 86_400_000

  /** Attempts at or after a moment, with no upper end. */
  function CountSince(attempts: seq<Attempt>, since: int): nat {
    if attempts == [] then 0
    else CountSince(attempts[..|attempts| - 1], since) + (if attempts[|attempts| - 1].at >= since then 1 else 0)
  }

  function OwnCount(attempts: seq<Attempt>, key: nat): nat {
    if attempts == [] then 0
    else OwnCount(attempts[..|attempts| - 1], key) + (if attempts[|attempts| - 1].key == key then 1 else 0)
  }

  datatype Candidate = Candidate(
    sequence: nat,
    incident: Incident,
    attempts: nat,
    lastHour: nat,
    lastDay: nat,
    lastUploadSuccess: Option<int>)

  predicate Pending(incident: Incident) {
    incident.resolvedAt.None? && incident.deliveredAt.None? && incident.smsSentAt.None?
  }

  function CandidateOf(db: EdgeDb, s: nat, now: int): Candidate
    requires s in db.incidents
  {
    Candidate(s, db.incidents[s], OwnCount(db.attempts, s), CountSince(db.attempts, now - HOUR),
              CountSince(db.attempts, now - DAY), db.sync.lastSuccess)
  }

  predicate Reserved(attempts: seq<Attempt>, key: nat, at: int) {
    exists i | 0 <= i < |attempts| :: attempts[i].key == key && attempts[i].at == at
  }

  /** Records the attempt before the modem is asked, and pushes the next one out. */
  function ReserveAttempt(db: EdgeDb, key: nat, at: int, retryAfter: int): (EdgeDb, bool) {
    if key !in db.incidents || Reserved(db.attempts, key, at) then (db, false)
    else
      var incident := db.incidents[key];
      var next := at + retryAfter;
      var kept := incident.nextSmsAttempt.Some? && incident.nextSmsAttempt.value >= next;
      (db.(attempts := db.attempts + [Attempt(key, at, None)],
           incidents := db.incidents[key := incident.(smsAttempts := incident.smsAttempts + 1,
                                                      nextSmsAttempt := if kept then incident.nextSmsAttempt else Some(next))]),
       true)
  }

  function FinishAttempts(attempts: seq<Attempt>, key: nat, at: int, succeeded: bool): (finished: seq<Attempt>)
    ensures |finished| == |attempts|
    ensures forall i | 0 <= i < |attempts| :: finished[i].key == attempts[i].key && finished[i].at == attempts[i].at
  {
    seq(|attempts|, i requires 0 <= i < |attempts| =>
      if attempts[i].key == key && attempts[i].at == at then attempts[i].(succeeded := Some(succeeded)) else attempts[i])
  }

  function RecordAttempt(db: EdgeDb, key: nat, at: int, succeeded: bool, next: Option<int>): (EdgeDb, bool) {
    if !Reserved(db.attempts, key, at) then (db, false)
    else
      var attempts := FinishAttempts(db.attempts, key, at, succeeded);
      var incidents :=
        if key !in db.incidents then db.incidents
        else
          var incident := db.incidents[key];
          db.incidents[key := incident.(
            nextSmsAttempt := if next.Some? then next else incident.nextSmsAttempt,
            smsSentAt := if incident.smsSentAt.None? && succeeded then Some(at) else incident.smsSentAt)];
      (db.(attempts := attempts, incidents := incidents), true)
  }

  // ---- Heartbeat attempts ----

  const HEARTBEAT_RETENTION := 7 * DAY

  function PruneBefore(heartbeats: seq<HeartbeatAttempt>, cutoff: int): seq<HeartbeatAttempt> {
    if heartbeats == [] then []
    else
      var last := heartbeats[|heartbeats| - 1];
      PruneBefore(heartbeats[..|heartbeats| - 1], cutoff) + (if last.at < cutoff then [] else [last])
  }

  function HeartbeatsSince(heartbeats: seq<HeartbeatAttempt>, since: int): nat {
    if heartbeats == [] then 0
    else HeartbeatsSince(heartbeats[..|heartbeats| - 1], since) + (if heartbeats[|heartbeats| - 1].at >= since then 1 else 0)
  }

  function ReserveHeartbeat(db: EdgeDb, at: int): EdgeDb {
    var sequence := db.lastHeartbeat + 1;
    db.(heartbeats := PruneBefore(db.heartbeats, at - HEARTBEAT_RETENTION) + [HeartbeatAttempt(sequence, at, None)],
        lastHeartbeat := sequence)
  }

  function RecordHeartbeat(db: EdgeDb, sequence: nat, succeeded: bool): EdgeDb {
    db.(heartbeats := seq(|db.heartbeats|, i requires 0 <= i < |db.heartbeats| =>
      if db.heartbeats[i].sequence == sequence then db.heartbeats[i].(succeeded := Some(succeeded)) else db.heartbeats[i]))
  }
}
