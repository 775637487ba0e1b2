/** The ingestion service: what it accepts it has put on the topic, and it answers for every record of a request it serves. */
module Ingestion {
  import opened Prelude
  import opened Text

  datatype IngestRecord = IngestRecord(
    sequence: nat,
    siteId: string,
    gatewayId: string,
    deviceId: string,
    topic: string,
    assetType: string,
    payload: string,
    priority: int,
    eventAt: Option<int>,
    receivedAt: Option<int>,
    uploadedAt: Option<int>,
    replay: bool,
    criticalCode: string,
    criticalValue: Option<real>)

  /** What a gateway says of its queue with every request. */
  datatype Health = Health(gatewayId: string, queueDepth: int, oldestPendingAt: Option<int>)

  datatype Contact = Contact(siteId: string, at: int, health: Health)

  /** What arrives: refused before it is understood, or the batch of an authenticated site. */
  datatype Call =
    | Unauthenticated
    | TooLarge
    | Unreadable
    | Malformed
    | Batch(siteId: string, health: Health, records: seq<IngestRecord>)

  /** How one publication ends. Kafka may have stored a record whose acknowledgement was lost. */
  datatype Produced = Confirmed | StoredUnconfirmed | NotStored

  datatype Answer = Accept | ValidationFailed | SiteMismatch | Internal

  datatype Rejection = Rejection(index: nat, sequence: nat, reason: Answer)

  /** A refused call is answered with an error body, which lists no records. */
  datatype Response =
    | Refusal(status: nat)
    | Served(accepted: seq<nat>, rejected: seq<Rejection>, status: nat)

  predicate ValidHealth(h: Health) {
    !Blank(h.gatewayId) && h.queueDepth >= 0 && (h.queueDepth == 0 <==> h.oldestPendingAt.None?)
  }

  /** Only a batch with a valid report is looked into. */
  predicate Admitted(call: Call) {
    call.Batch? && ValidHealth(call.health)
  }

  /** The alarm fields agree with each other and with the asset. */
  predicate ValidAlarm(r: IngestRecord) {
    if r.criticalCode == "" then r.criticalValue.None?
    else if r.criticalCode == "BATTERY_OVERHEAT" then r.assetType == "battery_bms" && r.criticalValue.Some?
    else if r.criticalCode == "INVERTER_FAILURE" then r.assetType == "solar_inverter" && r.criticalValue.None?
    else r.criticalCode in {"TAMPER_DETECTED", "SITE_OUTAGE"} && r.criticalValue.None?
  }

  predicate ValidRecord(r: IngestRecord) {
    && r.sequence > 0
    && !Blank(r.siteId) && !Blank(r.gatewayId) && !Blank(r.deviceId) && !Blank(r.topic)
    && r.payload != "" && r.eventAt.Some? && r.uploadedAt.Some?
    && ValidAlarm(r)
  }

  /** Publication is tried only for valid records of the authenticated site. */
  predicate Publishes(r: IngestRecord, siteId: string) {
    ValidRecord(r) && r.siteId == siteId
  }

  function AnswerTo(r: IngestRecord, siteId: string, produced: Produced): Answer {
    if !ValidRecord(r) then ValidationFailed
    else if r.siteId != siteId then SiteMismatch
    else if produced.Confirmed? then Accept
    else Internal
  }

  predicate Stored(r: IngestRecord, siteId: string, produced: Produced) {
    Publishes(r, siteId) && !produced.NotStored?
  }

  /** The records a request has added to the topic after its first n records. */
  function StoredBy(records: seq<IngestRecord>, siteId: string, produced: nat -> Produced, n: nat): seq<IngestRecord>
    requires n <= |records|
  {
    if n == 0 then []
    else
      StoredBy(records, siteId, produced, n - 1) + (if Stored(records[n - 1], siteId, produced(n - 1)) then [records[n - 1]] else [])
  }

  function AcceptedBy(records: seq<IngestRecord>, siteId: string, produced: nat -> Produced, n: nat): seq<nat>
    requires n <= |records|
  {
    if n == 0 then []
    else
      var answer := AnswerTo(records[n - 1], siteId, produced(n - 1));
      AcceptedBy(records, siteId, produced, n - 1) + (if answer.Accept? then [records[n - 1].sequence] else [])
  }

  function RejectedBy(records: seq<IngestRecord>, siteId: string, produced: nat -> Produced, n: nat): seq<Rejection>
    requires n <= |records|
  {
    if n == 0 then []
    else
      var answer := AnswerTo(records[n - 1], siteId, produced(n - 1));
      RejectedBy(records, siteId, produced, n - 1) + (if answer.Accept? then [] else [Rejection(n - 1, records[n - 1].sequence, answer)])
  }

  /** Accepting a sequence means a record with that sequence, valid and of this site, is on the topic. */
  lemma {:induction false} AcceptedIsStored(records: seq<IngestRecord>, siteId: string, produced: nat -> Produced, n: nat, s: nat)
    requires n <= |records| && s in AcceptedBy(records, siteId, produced, n)
    ensures exists r | r in StoredBy(records, siteId, produced, n) :: r.sequence == s && ValidRecord(r) && r.siteId == siteId
  {
    var before := StoredBy(records, siteId, produced, n - 1);
    if s in AcceptedBy(records, siteId, produced, n - 1) {
      AcceptedIsStored(records, siteId, produced, n - 1, s);
      var r :| r in before && r.sequence == s && ValidRecord(r) && r.siteId == siteId;
      assert r in StoredBy(records, siteId, produced, n);
    } else {
      assert records[n - 1] in StoredBy(records, siteId, produced, n);
    }
  }

  /** Nothing foreign or malformed reaches the topic. */
  lemma {:induction false} StoredIsOwn(records: seq<IngestRecord>, siteId: string, produced: nat -> Produced, n: nat)
    requires n <= |records|
    ensures forall r | r in StoredBy(records, siteId, produced, n) :: r in records && Publishes(r, siteId)
  {
    if n > 0 {
      StoredIsOwn(records, siteId, produced, n - 1);
    }
  }

  lemma {:induction false} EveryRecordCounted(records: seq<IngestRecord>, siteId: string, produced: nat -> Produced, n: nat)
    requires n <= |records|
    ensures |AcceptedBy(records, siteId, produced, n)| + |RejectedBy(records, siteId, produced, n)| == n
  {
    if n > 0 {
      EveryRecordCounted(records, siteId, produced, n - 1);
    }
  }

  /** Rejections name records that were not accepted, each at most once, in request order. */
  lemma {:induction false} RejectionsAreDeserved(records: seq<IngestRecord>, siteId: string, produced: nat -> Produced, n: nat, k: nat)
    requires n <= |records| && k < |RejectedBy(records, siteId, produced, n)|
    ensures var rejected := RejectedBy(records, siteId, produced, n);
      && rejected[k].index < n
      && !AnswerTo(records[rejected[k].index], siteId, produced(rejected[k].index)).Accept?
      && rejected[k].sequence == records[rejected[k].index].sequence
      && (k > 0 ==> rejected[k - 1].index < rejected[k].index)
  {
    var before := RejectedBy(records, siteId, produced, n - 1);
    if k < |before| {
      RejectionsAreDeserved(records, siteId, produced, n - 1, k);
    } else if k > 0 {
      RejectionsAreDeserved(records, siteId, produced, n - 1, k - 1);
    }
  }

  lemma {:induction false} UnacceptedIsRejected(records: seq<IngestRecord>, siteId: string, produced: nat -> Produced, n: nat, i: nat)
    requires i < n <= |records| && !AnswerTo(records[i], siteId, produced(i)).Accept?
    ensures Rejection(i, records[i].sequence, AnswerTo(records[i], siteId, produced(i))) in RejectedBy(records, siteId, produced, n)
  {
    if i < n - 1 {
      UnacceptedIsRejected(records, siteId, produced, n - 1, i);
    }
  }

  // ---- One call ----

  function RefusalStatus(call: Call): nat
    requires !Admitted(call)
  {
    match call
    case Unauthenticated => 401
    case TooLarge => 413
    case _ => 400
  }

  function Respond(call: Call, contact: Produced, produced: nat -> Produced): Response {
    if !Admitted(call) then Refusal(RefusalStatus(call))
    else if !contact.Confirmed? then Refusal(500)
    else
      var accepted := AcceptedBy(call.records, call.siteId, produced, |call.records|);
      var rejected := RejectedBy(call.records, call.siteId, produced, |call.records|);
      Served(accepted, rejected, if rejected == [] then 200 else if accepted == [] then 422 else 207)
  }

  class Service {
    var topic: seq<IngestRecord>
    var contacts: seq<Contact>

    /** One call at time now; contact and produced(i) are how publishing the contact and record i would end. */
    method HandleIngest(call: Call, now: int, contact: Produced, produced: nat -> Produced) returns (response: Response)
      modifies this
      ensures response == Respond(call, contact, produced)
      ensures topic == old(topic) + if response.Served? then StoredBy(call.records, call.siteId, produced, |call.records|) else []
      ensures contacts == old(contacts) +
                if Admitted(call) && !contact.NotStored? then [Contact(call.siteId, now, call.health)] else []
    {
      match call {
        case Unauthenticated => return Refusal(401);
        case TooLarge => return Refusal(413);
        case Unreadable => return Refusal(400);
        case Malformed => return Refusal(400);
        case Batch(siteId, health, records) =>
          if !ValidHealth(health) {
            return Refusal(400);
          }
          if !contact.NotStored? {
            contacts := contacts + [Contact(siteId, now, health)];
          }
          if !contact.Confirmed? {
            return Refusal(500);
          }
          response := IngestRecords(records, siteId, produced);
      }
    }

    method IngestRecords(records: seq<IngestRecord>, siteId: string, produced: nat -> Produced) returns (response: Response)
      modifies this`topic
      ensures topic == old(topic) + StoredBy(records, siteId, produced, |records|)
      ensures response.Served?
      ensures response.accepted == AcceptedBy(records, siteId, produced, |records|)
      ensures response.rejected == RejectedBy(records, siteId, produced, |records|)
      ensures response.status == 200 <==> response.rejected == []
      ensures response.status == 422 <==> response.rejected != [] && response.accepted == []
      ensures response.status in {200, 207, 422}
    {
      var accepted: seq<nat> := [];
      var rejected: seq<Rejection> := [];
      for i := 0 to |records|
        invariant topic == old(topic) + StoredBy(records, siteId, produced, i)
        invariant accepted == AcceptedBy(records, siteId, produced, i)
        invariant rejected == RejectedBy(records, siteId, produced, i)
      {
        var r := records[i];
        if !ValidRecord(r) {
          rejected := rejected + [Rejection(i, r.sequence, ValidationFailed)];
          continue;
        }
        if r.siteId != siteId {
          rejected := rejected + [Rejection(i, r.sequence, SiteMismatch)];
          continue;
        }
        if !produced(i).NotStored? {
          topic := topic + [r];
        }
        if !produced(i).Confirmed? {
          rejected := rejected + [Rejection(i, r.sequence, Internal)];
          continue;
        }
        accepted := accepted + [r.sequence];
      }
      var status := 200;
      if |rejected| > 0 && |accepted| == 0 {
        status := 422;
      } else if |rejected| > 0 {
        status := 207;
      }
      return Served(accepted, rejected, status);
    }
  }
}
