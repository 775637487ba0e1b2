/** The SQLite store: tables as fields, one method per transaction or query. */
module EdgeStore {
  import opened Prelude
  import opened EdgeModel
  import SmsMessages

  // ---- The ready query, read row by row ----

  /** The ready query lists eligible records only, as stored, oldest first. */
  lemma {:induction false} EligibleListed(rows: map<nat, Row>, now: int, n: nat, i: nat)
    requires i < |EligibleUpTo(rows, now, n)|
    ensures var q := EligibleUpTo(rows, now, n);
      && 1 <= q[i].sequence <= n
      && Eligible(rows, q[i].sequence, now)
      && q[i].row == rows[q[i].sequence]
      && (forall j | 0 <= j < i :: q[j].sequence < q[i].sequence)
  {
    var before := EligibleUpTo(rows, now, n - 1);
    if i < |before| {
      EligibleListed(rows, now, n - 1, i);
    } else {
      forall j | 0 <= j < i ensures before[j].sequence < n {
        EligibleListed(rows, now, n - 1, j);
      }
    }
  }

  lemma {:induction false} EligibleComplete(rows: map<nat, Row>, now: int, n: nat, s: nat)
    requires 1 <= s <= n && Eligible(rows, s, now)
    ensures Record(s, rows[s]) in EligibleUpTo(rows, now, n)
  {
    if s < n {
      EligibleComplete(rows, now, n - 1, s);
    }
  }

  /** A batch: a prefix of the query, never empty when the query is not, and cut only by the count or the byte target. */
  predicate BatchOf(batch: seq<Record>, query: seq<Record>, limit: nat, maxBytes: int) {
    && batch <= query
    && |batch| <= limit
    && (|batch| > 1 ==> PayloadBytes(batch) <= maxBytes)
    && (|batch| < |query| && |batch| < limit ==>
          batch != [] && PayloadBytes(batch) + |query[|batch|].row.event.payload| > maxBytes)
  }

  class Store {
    const cfg: Config
    const siteId: string
    var rows: map<nat, Row>
    var lastSequence: nat
    var sync: SyncState
    var incidents: map<nat, Incident>
    var attempts: seq<Attempt>
    var debounce: map<ConditionKey, int>
    var heartbeats: seq<HeartbeatAttempt>
    var lastHeartbeat: nat

    function Db(): EdgeDb
      reads this
    {
      EdgeDb(rows, lastSequence, sync, incidents, attempts, debounce, heartbeats, lastHeartbeat)
    }

    /** Opening an existing file: interrupted records first, incidents rebuilt from them second. */
    constructor (cfg: Config, siteId: string, file: EdgeDb)
      ensures this.cfg == cfg && this.siteId == siteId
      ensures Db() == Reopen(file)
    {
      this.cfg, this.siteId := cfg, siteId;
      rows, lastSequence, sync := file.rows, file.lastSequence, file.sync;
      incidents, attempts, debounce := file.incidents, file.attempts, file.debounce;
      heartbeats, lastHeartbeat := file.heartbeats, file.lastHeartbeat;
      new;
      RecoverInterruptedRows();
      RecoverFallbackIncidents();
    }

    method RecoverInterruptedRows()
      modifies this`rows, this`sync
      ensures Db() == RecoverInterrupted(old(Db()))
    {
      rows := map s | s in rows :: RecoverRow(rows[s]);
      sync := sync.(replayMode := exists s | s in rows :: rows[s].status.Active() && rows[s].replay);
    }

    method RecoverFallbackIncidents()
      modifies this`rows, this`incidents
      ensures Db() == RecoverIncidents(old(Db()))
    {
      rows := map s | s in rows :: SuppressRow(incidents, s, rows[s]);
      ghost var before := incidents;
      for n := 0 to lastSequence
        invariant incidents == RebuildIncidents(rows, before, n)
        invariant rows == old(SuppressCovered(Db())).rows
      {
        if AwaitsIncident(rows, n + 1) {
          incidents := InsertIncident(incidents, n + 1, RebuiltIncident(rows[n + 1]));
        }
      }
    }

    method Add(event: Event, status: Status, now: int, disk: Disk) returns (r: Result<nat, QueueError>)
      modifies this`rows, this`lastSequence
      ensures (Db(), r) == Insert(cfg, old(Db()), event, status, now, disk)
    {
      if !WellFormedEvent(event) {
        return Err(InvalidEvent);
      }
      if |event.payload| > cfg.maxEventBytes {
        return Err(EventTooLarge);
      }
      var refused := CheckAdmission(cfg, event, disk);
      if refused.Some? {
        return Err(refused.value);
      }
      var queuedBytes := Total(lastSequence, ActiveWeight(rows));
      if |event.payload| > cfg.PayloadCapacity() - queuedBytes {
        return Err(StorageCapacity);
      }
      if event.priority == PRIORITY_NORMAL && |event.payload| > cfg.NormalAdmissionLimit() - queuedBytes {
        return Err(CriticalReserve);
      }
      lastSequence := lastSequence + 1;
      rows := rows[lastSequence := Row(event, now, None, status, 0, 0, sync.replayMode, None, None, event.code, event.value)];
      return Ok(lastSequence);
    }

    method MarkPending(s: nat) returns (outcome: Outcome)
      modifies this`rows
      ensures (Db(), outcome) == MarkPendingUpload(old(Db()), s)
    {
      if s in rows && rows[s].status == Persisted {
        rows := rows[s := rows[s].(status := PendingUpload, nextAttempt := None, lastError := None)];
        return Done;
      }
      if s !in rows {
        return NotFound;
      }
      return if rows[s].status == PendingUpload then Done else InvalidTransition;
    }

    method Complete(s: nat, at: int) returns (outcome: Outcome)
      modifies this`rows, this`incidents, this`sync
      ensures (Db(), outcome) == CompleteUpload(old(Db()), s, at)
    {
      if s in rows && (rows[s].status == PendingUpload || rows[s].status == Uploaded) {
        rows := rows[s := rows[s].(status := Acknowledged, uploadedAt := Some(at), nextAttempt := None, lastError := None)];
      } else {
        if s !in rows {
          return NotFound;
        }
        if rows[s].status != Acknowledged {
          return InvalidTransition;
        }
      }
      if s in incidents {
        incidents := incidents[s := incidents[s].(deliveredAt := Some(at))];
      }
      sync := sync.(lastSuccess := Some(at), lastFailure := None,
                    replayMode := exists t | t in rows :: rows[t].status.Active() && rows[t].replay);
      return Done;
    }

    method GiveUp(s: nat, cause: string) returns (outcome: Outcome)
      modifies this`rows, this`sync
      ensures (Db(), outcome) == Abandon(old(Db()), s, cause)
    {
      var kept := cause;
      if |kept| > MAX_CAUSE_BYTES {
        kept := kept[..MAX_CAUSE_BYTES];
      }
      if s in rows && rows[s].status == PendingUpload {
        rows := rows[s := rows[s].(status := Abandoned, attempts := rows[s].attempts + 1,
                                   rejections := rows[s].rejections + 1, nextAttempt := None, lastError := Some(kept))];
        sync := sync.(abandonedCount := sync.abandonedCount + 1);
        return Done;
      }
      if s !in rows {
        return NotFound;
      }
      return if rows[s].status == Abandoned then Done else InvalidTransition;
    }

    method Fail(s: nat, retryAt: int, cause: string, rejected: bool) returns (outcome: Outcome)
      modifies this`rows, this`sync
      ensures (Db(), outcome) == MarkFailed(old(Db()), s, retryAt, cause, rejected)
    {
      if cause == "" {
        return BadArgument;
      }
      if |cause| > MAX_CAUSE_BYTES {
        return BadArgument;
      }
      if s !in rows || (rows[s].status != PendingUpload && rows[s].status != Uploaded) {
        return InvalidTransition;
      }
      var increment := if rejected then 1 else 0;
      rows := rows[s := rows[s].(status := PendingUpload, attempts := rows[s].attempts + 1,
                                 rejections := rows[s].rejections + increment,
                                 replay := true, nextAttempt := Some(retryAt), lastError := Some(cause))];
      rows := map t | t in rows :: if rows[t].status.Active() then rows[t].(replay := true) else rows[t];
      sync := sync.(lastFailure := Some(cause), replayMode := true);
      return Done;
    }

    method PurgeTerminal(cutoff: int)
      modifies this`rows
      ensures Db() == Purge(old(Db()), cutoff)
    {
      rows := map s | s in rows && !(!rows[s].status.Active() && rows[s].persistedAt < cutoff) :: rows[s];
    }

    method RecordContactSuccess(at: int)
      modifies this`sync
      ensures Db() == ContactSuccess(old(Db()), at)
    {
      sync := sync.(lastSuccess := Some(at), lastFailure := None,
                    replayMode := exists t | t in rows :: rows[t].status.Active() && rows[t].replay);
    }

    method RecordContactFailure(cause: string)
      modifies this`sync
      ensures Db() == ContactFailure(old(Db()), cause)
    {
      sync := sync.(lastFailure := Some(cause), replayMode := true);
    }

    method RecordFallbackUploadFailure(s: nat)
      modifies this`incidents
      ensures Db() == RecordUploadFailure(old(Db()), s)
    {
      if s in incidents && incidents[s].resolvedAt.None? && incidents[s].deliveredAt.None? {
        incidents := incidents[s := incidents[s].(uploadFailures := incidents[s].uploadFailures + 1)];
      }
    }

    /** The next upload batch: at most limit records, at least one if any is eligible, cut at the byte target. */
    method Ready(now: int, limit: nat, maxBytes: int) returns (r: Option<seq<Record>>)
      ensures r.None? <==> limit < 1 || maxBytes < 1
      ensures r.Some? ==> BatchOf(r.value, EligibleUpTo(rows, now, lastSequence), limit, maxBytes)
    {
      if limit < 1 || maxBytes < 1 {
        return None;
      }
      var query := EligibleUpTo(rows, now, lastSequence);
      var records: seq<Record> := [];
      var totalBytes := 0;
      while |records| < |query| && |records| < limit
        invariant records <= query && |records| <= limit
        invariant totalBytes == PayloadBytes(records)
        invariant |records| > 1 ==> totalBytes <= maxBytes
        decreases |query| - |records|
      {
        var record := query[|records|];
        if |records| > 0 && totalBytes + |record.row.event.payload| > maxBytes {
          break;
        }
        assert (records + [record])[..|records|] == records;
        records := records + [record];
        totalBytes := totalBytes + |record.row.event.payload|;
      }
      return Some(records);
    }

    // ---- Incidents, attempts and debounce ----

    /** Refused, with nothing written, when the event could not be sent as an SMS. */
    method OpenFallbackIncident(event: SmsMessages.FallbackEvent, openedAt: int) returns (r: Result<bool, SmsMessages.FormatError>)
      modifies this`incidents
      ensures r.Ok? <==> SmsMessages.Format(event).Ok?
      ensures r.Err? ==> Db() == old(Db())
      ensures r.Ok? ==>
        && event.occurredAt.Some?
        && Db() == old(Db()).(incidents := InsertIncident(old(incidents), event.sequence,
             NewIncident(event.assetId, event.code, event.temperature, event.occurredAt.value, openedAt)))
        && r.value == (incidents != old(incidents))
    {
      var message := SmsMessages.Format(event);
      if message.Err? {
        return Err(message.error);
      }
      var s := event.sequence;
      if s in incidents || HasUnresolved(incidents, event.assetId, event.code) {
        return Ok(false);
      }
      incidents := incidents[s := NewIncident(event.assetId, event.code, event.temperature, event.occurredAt.value, openedAt)];
      assert s in incidents && s !in old(incidents);
      return Ok(true);
    }

    method ResolveFallbackIncident(assetId: string, code: Code, at: int)
      modifies this`incidents
      ensures Db() == ResolveIncident(old(Db()), assetId, code, at)
    {
      incidents := map s | s in incidents ::
        if incidents[s].assetId == assetId && incidents[s].code == code && incidents[s].resolvedAt.None?
        then incidents[s].(resolvedAt := Some(at)) else incidents[s];
    }

    method ReserveFallbackAttempt(key: nat, at: int, retryAfter: int) returns (ok: bool)
      modifies this`attempts, this`incidents
      ensures (Db(), ok) == ReserveAttempt(old(Db()), key, at, retryAfter)
    {
      if key !in incidents || Reserved(attempts, key, at) {
        return false;
      }
      attempts := attempts + [Attempt(key, at, None)];
      var next := at + retryAfter;
      var incident := incidents[key].(smsAttempts := incidents[key].smsAttempts + 1);
      if incident.nextSmsAttempt.None? || incident.nextSmsAttempt.value < next {
        incident := incident.(nextSmsAttempt := Some(next));
      }
      incidents := incidents[key := incident];
      return true;
    }

    method RecordFallbackAttempt(key: nat, at: int, succeeded: bool, next: Option<int>) returns (ok: bool)
      modifies this`attempts, this`incidents
      ensures (Db(), ok) == RecordAttempt(old(Db()), key, at, succeeded, next)
    {
      if !Reserved(attempts, key, at) {
        return false;
      }
      attempts := FinishAttempts(attempts, key, at, succeeded);
      if key in incidents {
        var incident := incidents[key];
        if incident.smsSentAt.None? && succeeded {
          incident := incident.(smsSentAt := Some(at));
        }
        if next.Some? {
          incident := incident.(nextSmsAttempt := next);
        }
        incidents := incidents[key := incident];
      }
      return true;
    }

    method SaveDebounceCondition(key: ConditionKey, activeSince: int)
      modifies this`debounce
      ensures debounce == if key in old(debounce) then old(debounce) else old(debounce)[key := activeSince]
    {
      if key !in debounce {
        debounce := debounce[key := activeSince];
      }
    }

    method DeleteDebounceCondition(key: ConditionKey)
      modifies this`debounce
      ensures debounce == old(debounce) - {key}
    {
      debounce := map k | k in debounce && k != key :: debounce[k];
    }

    // ---- Heartbeats ----

    method ReserveHeartbeatAttempt(at: int) returns (sequence: nat)
      modifies this`heartbeats, this`lastHeartbeat
      ensures Db() == ReserveHeartbeat(old(Db()), at) && sequence == lastHeartbeat
    {
      heartbeats := PruneBefore(heartbeats, at - HEARTBEAT_RETENTION);
      lastHeartbeat := lastHeartbeat + 1;
      heartbeats := heartbeats + [HeartbeatAttempt(lastHeartbeat, at, None)];
      return lastHeartbeat;
    }

    method RecordHeartbeatAttempt(sequence: nat, succeeded: bool)
      modifies this`heartbeats
      ensures Db() == RecordHeartbeat(old(Db()), sequence, succeeded)
    {
      heartbeats := RecordHeartbeat(Db(), sequence, succeeded).heartbeats;
    }
  }
}
