/** What the ingestion service accepts, said field by field, and that every record an edge agent queues passes it. */
module WireEffects {
  import opened Prelude
  import opened Text
  import opened EdgeModel
  import opened EdgeTransactions
  import opened Ingestion
  import opened Wire
  import Uploader

  // ---- What is valid ----

  datatype Complaint =
    | NoSequence | NoSite | NoGateway | NoDevice | NoTopic | NoPayload | NoEventTime | NoUploadTime
    | HeatNeedsBattery | HeatNeedsValue | FailureNeedsInverter | ValueOnlyForHeat | UnknownCode | ValueNeedsCode

  /** Whether the service would find this wrong with a record. */
  predicate Complains(r: IngestRecord, c: Complaint) {
    match c
    case NoSequence => r.sequence == 0
    case NoSite => Blank(r.siteId)
    case NoGateway => Blank(r.gatewayId)
    case NoDevice => Blank(r.deviceId)
    case NoTopic => Blank(r.topic)
    case NoPayload => |r.payload| == 0
    case NoEventTime => r.eventAt == None
    case NoUploadTime => r.uploadedAt == None
    case HeatNeedsBattery => r.criticalCode == "BATTERY_OVERHEAT" && r.assetType != "battery_bms"
    case HeatNeedsValue => r.criticalCode == "BATTERY_OVERHEAT" && r.criticalValue == None
    case FailureNeedsInverter => r.criticalCode == "INVERTER_FAILURE" && r.assetType != "solar_inverter"
    case ValueOnlyForHeat =>
      (r.criticalCode == "INVERTER_FAILURE" || r.criticalCode == "TAMPER_DETECTED" || r.criticalCode == "SITE_OUTAGE") && r.criticalValue.Some?
    case UnknownCode =>
      && r.criticalCode != "" && r.criticalCode != "BATTERY_OVERHEAT" && r.criticalCode != "INVERTER_FAILURE"
      && r.criticalCode != "TAMPER_DETECTED" && r.criticalCode != "SITE_OUTAGE"
    case ValueNeedsCode => r.criticalCode == "" && r.criticalValue.Some?
  }

  lemma ValidUnlessComplaint(r: IngestRecord)
    ensures ValidRecord(r) <==> forall c: Complaint :: !Complains(r, c)
  {
    if forall c: Complaint :: !Complains(r, c) {
      assert !Complains(r, NoSequence) && !Complains(r, NoSite) && !Complains(r, NoGateway) && !Complains(r, NoDevice)
          && !Complains(r, NoTopic) && !Complains(r, NoPayload) && !Complains(r, NoEventTime) && !Complains(r, NoUploadTime);
      assert !Complains(r, HeatNeedsBattery) && !Complains(r, HeatNeedsValue) && !Complains(r, FailureNeedsInverter)
          && !Complains(r, ValueOnlyForHeat) && !Complains(r, UnknownCode) && !Complains(r, ValueNeedsCode);
    }
  }

  // ---- What is answered ----

  /**
   A call is served exactly if it is an authenticated batch with a consistent report whose contact was recorded;
   else its status says why not.
   */
  lemma ServedExactly(call: Call, contact: Produced, produced: nat -> Produced)
    ensures var response := Respond(call, contact, produced);
      var reported := call.Batch? && !Blank(call.health.gatewayId) && call.health.queueDepth >= 0
                      && (call.health.queueDepth > 0 <==> call.health.oldestPendingAt.Some?);
      && (response.Served? <==> reported && contact == Confirmed)
      && (response == Refusal(500) <==> reported && contact != Confirmed)
      && (response == Refusal(401) <==> call.Unauthenticated?)
      && (response == Refusal(413) <==> call.TooLarge?)
      && (response == Refusal(400) <==> !reported && !call.Unauthenticated? && !call.TooLarge?)
      && (response.Served? ==>
            response.status == if response.rejected == [] then 200 else if response.accepted == [] then 422 else 207)
  {
  }

  predicate Distinct(records: seq<IngestRecord>) {
    forall i, j | 0 <= i < j < |records| :: records[i].sequence != records[j].sequence
  }

  /**
   In a served batch a record is accepted exactly if nothing is wrong with it, it is the site's own, and its
   publication was confirmed.
   */
  lemma AcceptedExactly(records: seq<IngestRecord>, siteId: string, health: Health, contact: Produced, produced: nat -> Produced, i: nat)
    requires Distinct(records) && i < |records| && Respond(Batch(siteId, health, records), contact, produced).Served?
    ensures var response := Respond(Batch(siteId, health, records), contact, produced);
      records[i].sequence in response.accepted <==>
        (forall c: Complaint :: !Complains(records[i], c)) && records[i].siteId == siteId && produced(i) == Confirmed
  {
    ValidUnlessComplaint(records[i]);
    AcceptedAt(records, siteId, produced, |records|, i);
  }

  /** Nothing is wrong with the record, it is the site's own, and the topic took it, confirmed or not. */
  ghost predicate Reaches(r: IngestRecord, siteId: string, produced: Produced) {
    (forall c: Complaint :: !Complains(r, c)) && r.siteId == siteId && produced != NotStored
  }

  ghost predicate StoredAmong(records: seq<IngestRecord>, siteId: string, produced: nat -> Produced, n: nat, r: IngestRecord)
    requires n <= |records|
  {
    exists i | 0 <= i < n :: records[i] == r && Reaches(records[i], siteId, produced(i))
  }

  /** The topic gains exactly the records that reach it. */
  lemma {:induction false} StoredAt(records: seq<IngestRecord>, siteId: string, produced: nat -> Produced, n: nat, r: IngestRecord)
    requires n <= |records|
    ensures r in StoredBy(records, siteId, produced, n) <==> StoredAmong(records, siteId, produced, n, r)
  {
    if n > 0 {
      StoredAt(records, siteId, produced, n - 1, r);
      ValidUnlessComplaint(records[n - 1]);
      if StoredAmong(records, siteId, produced, n, r) && !StoredAmong(records, siteId, produced, n - 1, r) {
        var i :| 0 <= i < n && records[i] == r && Reaches(records[i], siteId, produced(i));
        assert i == n - 1;
      }
    }
  }

  /** A rejection gives its record's reason: what is wrong with it, else whose it is, else that it could not be published. */
  lemma RejectionReason(records: seq<IngestRecord>, siteId: string, produced: nat -> Produced, texts: nat -> string, k: nat)
    requires k < |RejectedBy(records, siteId, produced, |records|)|
    ensures var rejected := RejectedBy(records, siteId, produced, |records|);
      && rejected[k].index < |records|
      && var r := records[rejected[k].index];
         Errors(rejected, texts)[k] == Uploader.RecordError(r.sequence,
           if exists c: Complaint :: Complains(r, c) then "validation_failed" else if r.siteId != siteId then "site_mismatch" else "internal",
           texts(rejected[k].index))
  {
    var rejected := RejectedBy(records, siteId, produced, |records|);
    RejectionsAreDeserved(records, siteId, produced, |records|, k);
    ReasonAt(records, siteId, produced, |records|, k);
    ValidUnlessComplaint(records[rejected[k].index]);
  }

  lemma {:induction false} ReasonAt(records: seq<IngestRecord>, siteId: string, produced: nat -> Produced, n: nat, k: nat)
    requires n <= |records| && k < |RejectedBy(records, siteId, produced, n)|
    ensures var rejected := RejectedBy(records, siteId, produced, n);
      rejected[k].index < n && rejected[k].reason == AnswerTo(records[rejected[k].index], siteId, produced(rejected[k].index))
  {
    if k < |RejectedBy(records, siteId, produced, n - 1)| {
      ReasonAt(records, siteId, produced, n - 1, k);
    }
  }

  /**
   The edge takes 401 and every server error for a failed request, any other refusal for an answer that lists
   nothing, and a served call at its word.
   */
  lemma AnswerReadExactly(response: Response, cause: string, texts: nat -> string)
    ensures var reply := ReplyOf(response, cause, texts);
      && (response.Refusal? && (response.status == 401 || response.status >= 500) ==> reply == Uploader.RequestFailed(cause))
      && (response.Refusal? && response.status != 401 && response.status < 500 ==> reply == Uploader.Decoded([], []))
      && (response.Served? ==>
            && reply.Decoded? && reply.accepted == response.accepted && |reply.rejected| == |response.rejected|
            && forall k | 0 <= k < |reply.rejected| ::
                 reply.rejected[k].sequence == response.rejected[k].sequence && reply.rejected[k].message == texts(response.rejected[k].index))
  {
  }

  // ---- What an edge agent sends ----

  /** The alarm code agrees with the asset and carries a value exactly if it is an overheating battery's. */
  predicate Agrees(e: Event, code: Option<Code>, value: Option<real>) {
    && (value.Some? <==> code == Some(BatteryOverheat))
    && (code == Some(BatteryOverheat) ==> e.assetType == "battery_bms")
    && (code == Some(InverterFailure) ==> e.assetType == "solar_inverter")
  }

  /** The records an edge agent stores: well formed, under a device and a topic that are not blank, with an agreeing code. */
  predicate Sendable(row: Row) {
    WellFormedEvent(row.event) && !Blank(row.event.deviceId) && !Blank(row.event.topic) && Agrees(row.event, row.code, row.value)
  }

  /** A stored record passes the service's validation exactly if its code agrees and its device and topic are not blank. */
  lemma RecordPassesExactly(from: Sender, r: Record, uploadedAt: int)
    requires r.sequence > 0 && !Blank(from.siteId) && !Blank(from.gatewayId) && WellFormedEvent(r.row.event)
    ensures ValidRecord(AsWire(from, r, uploadedAt)) <==> Sendable(r.row)
  {
    NamesAgree(from, r, uploadedAt);
  }

  lemma NamesAgree(from: Sender, r: Record, uploadedAt: int)
    ensures ValidAlarm(AsWire(from, r, uploadedAt)) <==> Agrees(r.row.event, r.row.code, r.row.value)
  {
    match r.row.code {
      case None => assert CodeText(None) == "";
      case Some(BatteryOverheat) => assert CodeText(r.row.code)[0] == 'B';
      case Some(InverterFailure) => assert CodeText(r.row.code)[0] == 'I';
      case Some(TamperDetected) => assert CodeText(r.row.code)[0] == 'T';
      case Some(SiteOutage) => assert CodeText(r.row.code)[0] == 'S';
    }
  }

  /** Every event a history inserts can be sent. */
  ghost predicate InsertsSendable(txs: seq<Transaction>) {
    forall i | 0 <= i < |txs| && txs[i].InsertTx? ::
      var e := txs[i].event; WellFormedEvent(e) ==> !Blank(e.deviceId) && !Blank(e.topic) && Agrees(e, e.code, e.value)
  }

  ghost predicate AllSendable(rows: map<nat, Row>) {
    forall s | s in rows :: s > 0 && Sendable(rows[s])
  }

  /** A later version of a record: the same event, and its alarm as it was or dropped. */
  predicate SameAlarm(row: Row, row': Row) {
    row'.event == row.event && ((row'.code == row.code && row'.value == row.value) || (row'.code.None? && row'.value.None?))
  }

  ghost predicate AlarmsKept(rows: map<nat, Row>, rows': map<nat, Row>) {
    forall s | s in rows' :: s in rows && SameAlarm(rows[s], rows'[s])
  }

  lemma KeptIsSendable(rows: map<nat, Row>, rows': map<nat, Row>)
    requires AllSendable(rows) && AlarmsKept(rows, rows')
    ensures AllSendable(rows')
  {
  }

  lemma RestartKeepsAlarms(db: EdgeDb)
    ensures AlarmsKept(db.rows, Reopen(db).rows)
  {
  }

  lemma ReleasingKeepsAlarms(db: EdgeDb, s: nat)
    ensures AlarmsKept(db.rows, MarkPendingUpload(db, s).0.rows)
  {
  }

  lemma CompletingKeepsAlarms(db: EdgeDb, s: nat, at: int)
    ensures AlarmsKept(db.rows, CompleteUpload(db, s, at).0.rows)
  {
  }

  lemma AbandoningKeepsAlarms(db: EdgeDb, s: nat, cause: string)
    ensures AlarmsKept(db.rows, Abandon(db, s, cause).0.rows)
  {
  }

  lemma FailingKeepsAlarms(db: EdgeDb, s: nat, retryAt: int, cause: string, rejected: bool)
    ensures AlarmsKept(db.rows, MarkFailed(db, s, retryAt, cause, rejected).0.rows)
  {
  }

  lemma TransactionKeepsAlarms(cfg: Config, db: EdgeDb, tx: Transaction)
    requires !tx.InsertTx?
    ensures AlarmsKept(db.rows, Commit(cfg, db, tx).rows)
  {
    match tx {
      case PendingTx(s) => ReleasingKeepsAlarms(db, s);
      case CompleteTx(s, at) => CompletingKeepsAlarms(db, s, at);
      case AbandonTx(s, cause) => AbandoningKeepsAlarms(db, s, cause);
      case FailTx(s, retryAt, cause, rejected) => FailingKeepsAlarms(db, s, retryAt, cause, rejected);
      case ReopenTx => RestartKeepsAlarms(db);
      case _ =>
    }
  }

  lemma InsertIsSendable(cfg: Config, db: EdgeDb, tx: Transaction)
    requires tx.InsertTx? && AllSendable(db.rows)
    requires var e := tx.event; WellFormedEvent(e) ==> !Blank(e.deviceId) && !Blank(e.topic) && Agrees(e, e.code, e.value)
    ensures AllSendable(Commit(cfg, db, tx).rows)
  {
  }

  /** Whatever the store has been through, crashes included, the service finds nothing wrong with any record it holds. */
  lemma {:induction false} StoredRecordsPass(cfg: Config, txs: seq<Transaction>, from: Sender, s: nat, uploadedAt: int)
    requires InsertsSendable(txs) && !Blank(from.siteId) && !Blank(from.gatewayId)
    requires s in Committed(cfg, txs).rows
    ensures forall c: Complaint :: !Complains(AsWire(from, Record(s, Committed(cfg, txs).rows[s]), uploadedAt), c)
  {
    CommittedIsSendable(cfg, txs);
    var r := Record(s, Committed(cfg, txs).rows[s]);
    RecordPassesExactly(from, r, uploadedAt);
    ValidUnlessComplaint(AsWire(from, r, uploadedAt));
  }

  lemma {:induction false} CommittedIsSendable(cfg: Config, txs: seq<Transaction>)
    requires InsertsSendable(txs)
    ensures AllSendable(Committed(cfg, txs).rows)
  {
    if txs != [] {
      var n := |txs| - 1;
      CommittedIsSendable(cfg, txs[..n]);
      if txs[n].InsertTx? {
        InsertIsSendable(cfg, Committed(cfg, txs[..n]), txs[n]);
      } else {
        TransactionKeepsAlarms(cfg, Committed(cfg, txs[..n]), txs[n]);
        KeptIsSendable(Committed(cfg, txs[..n]).rows, Committed(cfg, txs).rows);
      }
    }
  }
}
