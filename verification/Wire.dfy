/**
 Between the edge and the ingestion service: the request built from a batch, the reply
 read from the response, and the service's whole handling of it as steps of the pipeline.
 */
module Wire {
  import opened Prelude
  import opened EdgeModel
  import opened Ingestion
  import opened Pipeline
  import opened Runs
  import Uploader

  datatype Sender = Sender(siteId: string, gatewayId: string)

  function CodeText(code: Option<Code>): string {
    match code
    case None => ""
    case Some(BatteryOverheat) => "BATTERY_OVERHEAT"
    case Some(InverterFailure) => "INVERTER_FAILURE"
    case Some(TamperDetected) => "TAMPER_DETECTED"
    case Some(SiteOutage) => "SITE_OUTAGE"
  }

  function AsWire(from: Sender, r: Record, uploadedAt: int): IngestRecord {
    IngestRecord(r.sequence, from.siteId, from.gatewayId, r.row.event.deviceId, r.row.event.topic, r.row.event.assetType,
                 r.row.event.payload, r.row.event.priority, r.row.event.eventAt, r.row.event.receivedAt, Some(uploadedAt),
                 r.row.replay, CodeText(r.row.code), r.row.value)
  }

  function Request(from: Sender, batch: seq<Record>, uploadedAt: int): (records: seq<IngestRecord>)
    ensures |records| == |batch| && forall i | 0 <= i < |batch| :: records[i] == AsWire(from, batch[i], uploadedAt)
  {
    seq(|batch|, i requires 0 <= i < |batch| => AsWire(from, batch[i], uploadedAt))
  }

  function ReasonText(reason: Answer): string {
    match reason
    case SiteMismatch => "site_mismatch"
    case Internal => "internal"
    case _ => "validation_failed"
  }

  /** The rejections as the edge reads them; texts(i) is the message for record i. */
  function Errors(rejected: seq<Rejection>, texts: nat -> string): (errors: seq<Uploader.RecordError>)
    ensures |errors| == |rejected|
    ensures forall i | 0 <= i < |rejected| :: errors[i].sequence == rejected[i].sequence
  {
    seq(|rejected|, i requires 0 <= i < |rejected| =>
      Uploader.RecordError(rejected[i].sequence, ReasonText(rejected[i].reason), texts(rejected[i].index)))
  }

  /**
   Unauthorized and server errors fail the upload with a cause; any other error body decodes to a response that
   lists no records.
   */
  function ReplyOf(response: Response, cause: string, texts: nat -> string): Uploader.Reply {
    match response
    case Refusal(status) =>
      if status == 401 || status >= 500 then Uploader.RequestFailed(cause) else Uploader.Decoded([], [])
    case Served(accepted, rejected, _) => Uploader.Decoded(accepted, Errors(rejected, texts))
  }

  // ---- Serving a request is a run of the pipeline ----

  /** Which records of the batch the service stores. */
  function StoredIn(from: Sender, batch: seq<Record>, uploadedAt: int, produced: nat -> Produced): nat -> bool {
    (i: nat) => i < |batch| && Stored(AsWire(from, batch[i], uploadedAt), from.siteId, produced(i))
  }

  /** The records of the batch the service has put on the topic after the first n. */
  function StoredRecords(batch: seq<Record>, stored: nat -> bool, n: nat): seq<Record>
    requires n <= |batch|
  {
    if n == 0 then [] else StoredRecords(batch, stored, n - 1) + (if stored(n - 1) then [batch[n - 1]] else [])
  }

  /** What the service stores is these records of the batch, in wire form and in order, and nothing else. */
  lemma {:induction false} StoredAreRecords(from: Sender, batch: seq<Record>, uploadedAt: int, produced: nat -> Produced, n: nat)
    requires n <= |batch|
    ensures StoredBy(Request(from, batch, uploadedAt), from.siteId, produced, n) ==
            Request(from, StoredRecords(batch, StoredIn(from, batch, uploadedAt, produced), n), uploadedAt)
  {
    if n > 0 {
      StoredAreRecords(from, batch, uploadedAt, produced, n - 1);
    }
  }

  ghost function Stepper(setup: Setup): (World, Step) -> World {
    (w: World, step: Step) => Pipeline.Apply(setup, w, step)
  }

  lemma {:induction false} RunIsFold(setup: Setup, steps: seq<Step>)
    ensures Run(setup, steps) == Fold(Stepper(setup), INITIAL, steps)
  {
    if steps != [] {
      RunIsFold(setup, steps[..|steps| - 1]);
    }
  }

  lemma RunContinues(setup: Setup, steps: seq<Step>, more: seq<Step>)
    ensures Run(setup, steps + more) == Fold(Stepper(setup), Run(setup, steps), more)
  {
    RunIsFold(setup, steps);
    RunIsFold(setup, steps + more);
    FoldContinues(Stepper(setup), INITIAL, steps, more);
  }

  /** The world of a request in flight once these of its records are on the topic. */
  function WithPublished(w: World, records: seq<Record>): World
    requires w.link.Sent?
  {
    w.(topic := w.topic + Messages(records), link := w.link.(published := w.link.published + Uploader.Sequences(records)))
  }

  lemma PublishingIsStep(setup: Setup, w: World, records: seq<Record>, i: nat)
    requires w.link.Sent? && i < |w.link.batch|
    ensures Pipeline.Apply(setup, WithPublished(w, records), PublishStep(i)) == WithPublished(w, records + [w.link.batch[i]])
  {
    var last := w.link.batch[i];
    assert Messages(records + [last]) == Messages(records) + {AsMessage(last)} by {
      assert (records + [last])[|records|] == last;
      assert forall r | r in records :: r in records + [last];
    }
    assert Uploader.Sequences(records + [last]) == Uploader.Sequences(records) + {last.sequence} by {
      assert (records + [last])[|records|] == last;
      assert forall r | r in records :: r in records + [last];
    }
    assert w.topic + Messages(records) + {AsMessage(last)} == w.topic + Messages(records + [last]);
    assert w.link.published + Uploader.Sequences(records) + {last.sequence} == w.link.published + Uploader.Sequences(records + [last]);
  }

  lemma NothingPublished(w: World)
    requires w.link.Sent?
    ensures WithPublished(w, []) == w
  {
    assert w.topic + Messages([]) == w.topic && w.link.published + Uploader.Sequences([]) == w.link.published;
  }

  /** The publications the service makes for the first n records of the batch. */
  function StoreSteps(stored: nat -> bool, n: nat): seq<Step> {
    if n == 0 then [] else StoreSteps(stored, n - 1) + (if stored(n - 1) then [PublishStep(n - 1)] else [])
  }

  /** What a step function must do for the publications of a request. */
  ghost predicate StepsPublish(f: (World, Step) -> World, w: World)
    requires w.link.Sent?
  {
    forall records: seq<Record>, i: nat | i < |w.link.batch| ::
      f(WithPublished(w, records), PublishStep(i)) == WithPublished(w, records + [w.link.batch[i]])
  }

  lemma StepperPublishes(setup: Setup, w: World)
    requires w.link.Sent?
    ensures StepsPublish(Stepper(setup), w)
  {
    forall records: seq<Record>, i: nat | i < |w.link.batch|
      ensures Stepper(setup)(WithPublished(w, records), PublishStep(i)) == WithPublished(w, records + [w.link.batch[i]])
    {
      PublishingIsStep(setup, w, records, i);
    }
  }

  lemma {:induction false} StoringFolds(f: (World, Step) -> World, w: World, stored: nat -> bool, n: nat)
    requires w.link.Sent? && n <= |w.link.batch| && StepsPublish(f, w)
    ensures Fold(f, w, StoreSteps(stored, n)) == WithPublished(w, StoredRecords(w.link.batch, stored, n))
  {
    if n == 0 {
      NothingPublished(w);
    } else {
      StoringFolds(f, w, stored, n - 1);
      var steps, records := StoreSteps(stored, n - 1), StoredRecords(w.link.batch, stored, n - 1);
      if stored(n - 1) {
        FoldOne(f, w, steps, PublishStep(n - 1));
        assert f(WithPublished(w, records), PublishStep(n - 1)) == WithPublished(w, records + [w.link.batch[n - 1]]);
      } else {
        assert steps + [] == steps && records + [] == records;
      }
    }
  }

  lemma StoringIsSteps(setup: Setup, w: World, stored: nat -> bool, n: nat)
    requires w.link.Sent? && n <= |w.link.batch|
    ensures Fold(Stepper(setup), w, StoreSteps(stored, n)) == WithPublished(w, StoredRecords(w.link.batch, stored, n))
  {
    StepperPublishes(setup, w);
    StoringFolds(Stepper(setup), w, stored, n);
  }

  /** An accepted sequence is that of a record the service stored. */
  lemma {:induction false} AcceptedRecord(from: Sender, batch: seq<Record>, uploadedAt: int, produced: nat -> Produced, n: nat, s: nat)
    returns (r: Record)
    requires n <= |batch| && s in AcceptedBy(Request(from, batch, uploadedAt), from.siteId, produced, n)
    ensures r.sequence == s && r in StoredRecords(batch, StoredIn(from, batch, uploadedAt, produced), n)
  {
    if s in AcceptedBy(Request(from, batch, uploadedAt), from.siteId, produced, n - 1) {
      r := AcceptedRecord(from, batch, uploadedAt, produced, n - 1, s);
    } else {
      r := batch[n - 1];
    }
  }

  lemma AcceptedIsPublished(from: Sender, batch: seq<Record>, uploadedAt: int, produced: nat -> Produced)
    ensures forall s | s in AcceptedBy(Request(from, batch, uploadedAt), from.siteId, produced, |batch|) ::
      s in Uploader.Sequences(StoredRecords(batch, StoredIn(from, batch, uploadedAt, produced), |batch|))
  {
    forall s | s in AcceptedBy(Request(from, batch, uploadedAt), from.siteId, produced, |batch|)
      ensures s in Uploader.Sequences(StoredRecords(batch, StoredIn(from, batch, uploadedAt, produced), |batch|))
    {
      var r := AcceptedRecord(from, batch, uploadedAt, produced, |batch|, s);
    }
  }

  lemma AnsweringIsStep(setup: Setup, w: World, records: seq<Record>, reply: Uploader.Reply)
    requires w.link.Sent?
    requires reply.Decoded? ==> forall s | s in reply.accepted :: s in Uploader.Sequences(records)
    ensures Pipeline.Apply(setup, WithPublished(w, records), AnswerStep(reply))
         == w.(topic := w.topic + Messages(records), link := Answered(w.link.batch, reply, 0))
  {
  }

  /**
   However its publications end, the service's handling of a request, and the edge's reading of
   the response, are steps of the pipeline: the topic gains exactly what was stored, and the edge
   holds a reply that accepts nothing else.
   */
  lemma {:induction false} ServingIsRun(setup: Setup, steps: seq<Step>, from: Sender, health: Health, uploadedAt: int,
                                        contact: Produced, produced: nat -> Produced, cause: string, texts: nat -> string)
    returns (longer: seq<Step>)
    requires Run(setup, steps).link.Sent?
    ensures var w, w' := Run(setup, steps), Run(setup, longer);
      var response := Respond(Batch(from.siteId, health, Request(from, w.link.batch, uploadedAt)), contact, produced);
      var stored := StoredRecords(w.link.batch, StoredIn(from, w.link.batch, uploadedAt, produced), if response.Served? then |w.link.batch| else 0);
      w' == w.(topic := w.topic + Messages(stored),
               link := Answered(w.link.batch, ReplyOf(response, cause, texts), 0))
  {
    var w := Run(setup, steps);
    var response := Respond(Batch(from.siteId, health, Request(from, w.link.batch, uploadedAt)), contact, produced);
    var n := if response.Served? then |w.link.batch| else 0;
    var stored := StoredIn(from, w.link.batch, uploadedAt, produced);
    var stores := StoreSteps(stored, n);
    var answer := AnswerStep(ReplyOf(response, cause, texts));
    StoringIsSteps(setup, w, stored, n);
    AcceptedIsPublished(from, w.link.batch, uploadedAt, produced);
    AnsweringIsStep(setup, w, StoredRecords(w.link.batch, stored, n), ReplyOf(response, cause, texts));
    FoldOne(Stepper(setup), w, stores, answer);
    longer := steps + (stores + [answer]);
    RunContinues(setup, steps, stores + [answer]);
  }

  // ---- What a response costs ----

  lemma {:induction false} AcceptedAt(records: seq<IngestRecord>, siteId: string, produced: nat -> Produced, n: nat, i: nat)
    requires i < n <= |records| && forall j, k | 0 <= j < k < |records| :: records[j].sequence != records[k].sequence
    ensures records[i].sequence in AcceptedBy(records, siteId, produced, n) <==> AnswerTo(records[i], siteId, produced(i)).Accept?
  {
    if i < n - 1 {
      AcceptedAt(records, siteId, produced, n - 1, i);
    } else {
      NotYetAccepted(records, siteId, produced, i, i);
    }
  }

  lemma {:induction false} NotYetAccepted(records: seq<IngestRecord>, siteId: string, produced: nat -> Produced, n: nat, i: nat)
    requires n <= i < |records| && forall j, k | 0 <= j < k < |records| :: records[j].sequence != records[k].sequence
    ensures records[i].sequence !in AcceptedBy(records, siteId, produced, n)
  {
    if n > 0 {
      NotYetAccepted(records, siteId, produced, n - 1, i);
    }
  }

  /**
   Exactly when a record of a batch is refused one of its tries: the call itself was refused with
   400 or 413, or it was served and this record failed validation or could not be published.
   */
  lemma {:induction false} RefusedExactly(from: Sender, batch: seq<Record>, call: Call, uploadedAt: int, contact: Produced,
                                          produced: nat -> Produced, cause: string, texts: nat -> string, i: nat)
    requires Uploader.DistinctRecords(batch) && i < |batch|
    requires call.Batch? ==> call.siteId == from.siteId && call.records == Request(from, batch, uploadedAt)
    ensures var response := Respond(call, contact, produced);
      Uploader.Refused(ReplyOf(response, cause, texts), batch[i].sequence) <==>
        || response == Refusal(400) || response == Refusal(413)
        || (response.Served? && (!ValidRecord(AsWire(from, batch[i], uploadedAt)) || !produced(i).Confirmed?))
  {
    var response := Respond(call, contact, produced);
    if response.Served? {
      AcceptedAt(call.records, from.siteId, produced, |batch|, i);
    }
  }
}
