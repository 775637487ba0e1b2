/**
 The edge and the platform together: whatever the edge, the network and the topic do,
 and however often a delivery fails or is repeated, the engine stores each record's
 reading and takes its alert decision at most once.
 */
module EndToEnd {
  import opened Prelude
  import opened EdgeModel
  import opened Pipeline
  import PipelineRuns
  import Platform
  import PlatformLaws
  import SmsMessages

  // ---- The joint machine ----

  /** temperatureOf is what the engine decodes from a payload. */
  datatype Deployment = Deployment(edge: Setup, policy: Platform.Policy, siteId: string, temperatureOf: string -> Option<real>)

  /** decided notes, in order, the deliveries whose ingest transaction did its work: reading stored and alert decision taken. */
  datatype System = System(edge: World, db: Platform.Db, decided: seq<Message>)

  const START := System(INITIAL, Platform.EMPTY, [])

  datatype SystemStep =
    | EdgeStep(edgeStep: Step)
    | DeliverStep(message: Message)
    | PlatformStep(platformStep: PlatformLaws.Step)

  function KeyOf(d: Deployment, s: nat): string {
    SmsMessages.EventKey(d.siteId, s)
  }

  function AssetTypeOf(t: string): Platform.AssetType {
    if t == "battery_bms" then Platform.BatteryBms
    else if t == "solar_inverter" then Platform.SolarInverter
    else Platform.SmartMeter
  }

  /** The reading the engine decodes from a message, under the event key as its identity. */
  function ReadingOf(d: Deployment, m: Message): Platform.Reading {
    Platform.Reading(m.event.deviceId, d.siteId, AssetTypeOf(m.event.assetType), d.temperatureOf(m.event.payload),
                     if m.event.eventAt.Some? then m.event.eventAt.value else 0, Some(KeyOf(d, m.sequence)))
  }

  function IngestOf(d: Deployment, db: Platform.Db, m: Message): Result<Platform.Db, Platform.Failure> {
    Platform.Ingest(db, ReadingOf(d, m), Platform.Decide(d.policy, ReadingOf(d, m), m.code))
  }

  /** Everything else that reaches the platform: only this site's own gateway publishes under its event keys. */
  ghost predicate Foreign(d: Deployment, step: PlatformLaws.Step) {
    step.ReadingStep? ==> forall s: nat :: step.reading.source != Some(KeyOf(d, s))
  }

  /** A failed transaction leaves the delivery unapplied; it may be delivered again. */
  function Deliver(d: Deployment, sys: System, m: Message): System {
    var r := IngestOf(d, sys.db, m);
    sys.(db := PlatformLaws.Commit(sys.db, r),
         decided := if r.Ok? && KeyOf(d, m.sequence) !in sys.db.dedup then sys.decided + [m] else sys.decided)
  }

  ghost function Apply(d: Deployment, sys: System, step: SystemStep): System {
    match step
    case EdgeStep(edgeStep) => sys.(edge := Pipeline.Apply(d.edge, sys.edge, edgeStep))
    case DeliverStep(m) => if m in sys.edge.topic then Deliver(d, sys, m) else sys
    case PlatformStep(platformStep) =>
      if Foreign(d, platformStep) then sys.(db := PlatformLaws.Apply(d.policy, sys.db, platformStep)) else sys
  }

  ghost function Run(d: Deployment, steps: seq<SystemStep>): System {
    if steps == [] then START
    else Apply(d, Run(d, steps[..|steps| - 1]), steps[|steps| - 1])
  }

  // ---- What the ingest transaction claims ----

  lemma OutcomeClaimsNothing(db: Platform.Db, r: Platform.Reading, outcome: Platform.PolicyOutcome)
    requires Platform.ApplyOutcome(db, r, outcome).Ok?
    ensures Platform.ApplyOutcome(db, r, outcome).value.dedup == db.dedup
  {
  }

  lemma IngestClaims(db: Platform.Db, r: Platform.Reading, outcome: Platform.PolicyOutcome)
    requires Platform.Ingest(db, r, outcome).Ok?
    ensures Platform.Ingest(db, r, outcome).value.dedup == db.dedup + (if r.source.Some? then {r.source.value} else {})
  {
    if !(r.source.Some? && r.source.value in db.dedup) {
      OutcomeClaimsNothing(PlatformLaws.Claimed(db, r).value, r, outcome);
    }
  }

  lemma ForeignStepClaimsNothing(d: Deployment, db: Platform.Db, step: PlatformLaws.Step, s: nat)
    requires Foreign(d, step)
    ensures KeyOf(d, s) in PlatformLaws.Apply(d.policy, db, step).dedup <==> KeyOf(d, s) in db.dedup
  {
    if step.ReadingStep? {
      var outcome := Platform.Decide(d.policy, step.reading, step.code);
      if Platform.Ingest(db, step.reading, outcome).Ok? {
        IngestClaims(db, step.reading, outcome);
      }
    }
  }

  // ---- The invariant ----

  ghost predicate Decided(decided: seq<Message>, s: nat) {
    exists i | 0 <= i < |decided| :: decided[i].sequence == s
  }

  ghost predicate Claims(d: Deployment, dedup: set<string>, decided: seq<Message>) {
    && (forall s: nat :: KeyOf(d, s) in dedup <==> Decided(decided, s))
    && (forall i, j | 0 <= i < j < |decided| :: decided[i].sequence != decided[j].sequence)
  }

  ghost predicate Inv(d: Deployment, sys: System) {
    && Pipeline.Inv(d.edge, sys.edge)
    && PlatformLaws.Inv(sys.db)
    && Claims(d, sys.db.dedup, sys.decided)
    && (forall i | 0 <= i < |sys.decided| :: sys.decided[i] in sys.edge.topic)
  }

  lemma ClaimOneMore(d: Deployment, dedup: set<string>, decided: seq<Message>, m: Message)
    requires Claims(d, dedup, decided) && KeyOf(d, m.sequence) !in dedup
    ensures Claims(d, dedup + {KeyOf(d, m.sequence)}, decided + [m])
  {
    var after := decided + [m];
    forall s: nat ensures KeyOf(d, s) in dedup + {KeyOf(d, m.sequence)} <==> Decided(after, s) {
      if KeyOf(d, s) == KeyOf(d, m.sequence) {
        SmsMessages.EventKeysDistinct(d.siteId, s, d.siteId, m.sequence);
        assert after[|decided|].sequence == s;
      } else if Decided(decided, s) {
        var i :| 0 <= i < |decided| && decided[i].sequence == s;
        assert after[i].sequence == s;
      }
    }
    assert !Decided(decided, m.sequence);
  }

  lemma IngestClaimsKey(d: Deployment, db: Platform.Db, m: Message)
    requires IngestOf(d, db, m).Ok?
    ensures IngestOf(d, db, m).value.dedup == db.dedup + {KeyOf(d, m.sequence)}
  {
    IngestClaims(db, ReadingOf(d, m), Platform.Decide(d.policy, ReadingOf(d, m), m.code));
  }

  lemma DeliverKeepsClaims(d: Deployment, sys: System, m: Message)
    requires Claims(d, sys.db.dedup, sys.decided)
    ensures Claims(d, Deliver(d, sys, m).db.dedup, Deliver(d, sys, m).decided)
  {
    if IngestOf(d, sys.db, m).Ok? {
      IngestClaimsKey(d, sys.db, m);
      if KeyOf(d, m.sequence) !in sys.db.dedup {
        ClaimOneMore(d, sys.db.dedup, sys.decided, m);
      } else {
        assert sys.db.dedup + {KeyOf(d, m.sequence)} == sys.db.dedup;
      }
    }
  }

  lemma DeliverKeepsPlatform(d: Deployment, sys: System, m: Message)
    requires PlatformLaws.Inv(sys.db)
    ensures PlatformLaws.Inv(Deliver(d, sys, m).db)
  {
    var step := PlatformLaws.ReadingStep(ReadingOf(d, m), m.code);
    PlatformLaws.StepKeeps(d.policy, sys.db, step);
    assert Deliver(d, sys, m).db == PlatformLaws.Apply(d.policy, sys.db, step);
  }

  lemma DeliverKeepsInv(d: Deployment, sys: System, m: Message)
    requires Inv(d, sys) && m in sys.edge.topic
    ensures Inv(d, Deliver(d, sys, m))
  {
    DeliverKeepsPlatform(d, sys, m);
    DeliverKeepsClaims(d, sys, m);
    assert Deliver(d, sys, m).edge == sys.edge;
  }

  lemma PlatformStepKeepsInv(d: Deployment, sys: System, step: PlatformLaws.Step)
    requires Inv(d, sys) && Foreign(d, step)
    ensures Inv(d, sys.(db := PlatformLaws.Apply(d.policy, sys.db, step)))
  {
    PlatformLaws.StepKeeps(d.policy, sys.db, step);
    forall s: nat ensures KeyOf(d, s) in PlatformLaws.Apply(d.policy, sys.db, step).dedup <==> Decided(sys.decided, s) {
      ForeignStepClaimsNothing(d, sys.db, step, s);
    }
  }

  lemma EdgeStepKeepsInv(d: Deployment, sys: System, step: Step)
    requires Inv(d, sys)
    ensures Inv(d, sys.(edge := Pipeline.Apply(d.edge, sys.edge, step)))
  {
    PipelineRuns.StepKeepsInv(d.edge, sys.edge, step);
    PipelineRuns.HistoryGrows(d.edge, sys.edge, step);
  }

  lemma StepKeepsInv(d: Deployment, sys: System, step: SystemStep)
    requires Inv(d, sys)
    ensures Inv(d, Apply(d, sys, step))
  {
    match step {
      case EdgeStep(edgeStep) => EdgeStepKeepsInv(d, sys, edgeStep);
      case DeliverStep(m) => if m in sys.edge.topic { DeliverKeepsInv(d, sys, m); }
      case PlatformStep(platformStep) => if Foreign(d, platformStep) { PlatformStepKeepsInv(d, sys, platformStep); }
    }
  }

  lemma {:induction false} RunKeepsInv(d: Deployment, steps: seq<SystemStep>)
    requires d.edge.Valid()
    ensures Inv(d, Run(d, steps))
  {
    if steps == [] {
      PipelineRuns.InitialInv(d.edge);
      PlatformLaws.EmptyKeeps();
    } else {
      RunKeepsInv(d, steps[..|steps| - 1]);
      StepKeepsInv(d, Run(d, steps[..|steps| - 1]), steps[|steps| - 1]);
    }
  }

  // ---- End to end ----

  /**
   In every run with edge crashes, lost and late replies, failed ingest transactions,
   redelivery and every other traffic of the platform: each inserted record is decided
   on at most once, as it was inserted, and the engine stores its reading exactly once
   if it was and never otherwise.
   */
  lemma {:induction false} AppliedAtMostOnce(d: Deployment, steps: seq<SystemStep>)
    requires d.edge.Valid()
    ensures var sys := Run(d, steps);
      && (forall i, j | 0 <= i < j < |sys.decided| :: sys.decided[i].sequence != sys.decided[j].sequence)
      && (forall i | 0 <= i < |sys.decided| ::
            && sys.decided[i].sequence in sys.edge.history.inserted
            && Authentic(sys.decided[i].event, sys.decided[i].code, sys.edge.history.inserted[sys.decided[i].sequence]))
      && (forall s: nat :: sys.db.readings[KeyOf(d, s)] == if Decided(sys.decided, s) then 1 else 0)
  {
    RunKeepsInv(d, steps);
  }

  /** And at most one alert is ever opened for a record, announced once. */
  lemma {:induction false} OneAlertPerRecord(d: Deployment, steps: seq<SystemStep>, s: nat, i: nat, j: nat)
    requires d.edge.Valid()
    ensures var db := Run(d, steps).db;
      i in db.alerts && j in db.alerts && db.alerts[i].source == db.alerts[j].source == Some(KeyOf(d, s)) ==>
        i == j && db.outbox[Platform.AlertOpened(i)] == 1
  {
    RunKeepsInv(d, steps);
    SmsMessages.EventKeyIsEdge(d.siteId, s);
    var db := Run(d, steps).db;
    if i in db.alerts && j in db.alerts && db.alerts[i].source == db.alerts[j].source == Some(KeyOf(d, s)) {
      assert PlatformLaws.SameEdgeSource(db.alerts[i], db.alerts[j]);
    }
  }

  /** An ingest that fails takes back its claim: nothing has changed, and the same delivery can still be applied. */
  lemma {:induction false} FailedDeliveryIsRetriable(d: Deployment, steps: seq<SystemStep>, m: Message)
    requires d.edge.Valid() && m in Run(d, steps).edge.topic && IngestOf(d, Run(d, steps).db, m).Err?
    ensures Run(d, steps + [DeliverStep(m)]) == Run(d, steps)
    ensures KeyOf(d, m.sequence) !in Run(d, steps).db.dedup && !Decided(Run(d, steps).decided, m.sequence)
  {
    RunKeepsInv(d, steps);
    assert (steps + [DeliverStep(m)])[..|steps|] == steps;
  }

  /**
   An acknowledged record is never out of the engine's reach: as inserted it is still on the topic, and one ingest
   that succeeds decides on it.
   */
  lemma {:induction false} AcknowledgedIsDeliverable(d: Deployment, steps: seq<SystemStep>, s: nat) returns (m: Message)
    requires d.edge.Valid() && s in Run(d, steps).edge.history.acked
    ensures var sys := Run(d, steps);
      && m in sys.edge.topic && m.sequence == s
      && s in sys.edge.history.inserted && Authentic(m.event, m.code, sys.edge.history.inserted[s])
      && (IngestOf(d, sys.db, m).Ok? ==> Decided(Run(d, steps + [DeliverStep(m)]).decided, s))
  {
    RunKeepsInv(d, steps);
    m := AcknowledgedMessage(d, Run(d, steps), s);
    assert (steps + [DeliverStep(m)])[..|steps|] == steps;
    DeliveryDecides(d, Run(d, steps), m);
  }

  lemma AcknowledgedMessage(d: Deployment, sys: System, s: nat) returns (m: Message)
    requires Inv(d, sys) && s in sys.edge.history.acked
    ensures m in sys.edge.topic && m.sequence == s
    ensures s in sys.edge.history.inserted && Authentic(m.event, m.code, sys.edge.history.inserted[s])
  {
    assert s in Published(sys.edge.topic);
    m :| m in sys.edge.topic && m.sequence == s;
  }

  lemma DeliveryDecides(d: Deployment, sys: System, m: Message)
    requires Claims(d, sys.db.dedup, sys.decided)
    ensures IngestOf(d, sys.db, m).Ok? ==> Decided(Deliver(d, sys, m).decided, m.sequence)
  {
    if IngestOf(d, sys.db, m).Ok? && KeyOf(d, m.sequence) !in sys.db.dedup {
      assert (sys.decided + [m])[|sys.decided|].sequence == m.sequence;
    }
  }

  // ---- Nothing either side can do is left out ----

  lemma RunExtends(d: Deployment, steps: seq<SystemStep>, step: SystemStep)
    ensures Run(d, steps + [step]) == Apply(d, Run(d, steps), step)
  {
    assert (steps + [step])[..|steps|] == steps;
  }

  /** Every run of the edge alone is the edge's part of a joint run. */
  lemma {:induction false} EdgeRunsEmbed(d: Deployment, steps: seq<Step>) returns (joint: seq<SystemStep>)
    ensures Run(d, joint).edge == Pipeline.Run(d.edge, steps)
  {
    if steps == [] {
      joint := [];
    } else {
      var earlier := EdgeRunsEmbed(d, steps[..|steps| - 1]);
      var last := EdgeStep(steps[|steps| - 1]);
      RunExtends(d, earlier, last);
      joint := earlier + [last];
    }
  }

  /** So is every run of the platform whose traffic is not the gateway's, after any joint run. */
  lemma {:induction false} PlatformRunsEmbed(d: Deployment, start: seq<SystemStep>, steps: seq<PlatformLaws.Step>) returns (joint: seq<SystemStep>)
    requires forall i | 0 <= i < |steps| :: Foreign(d, steps[i])
    ensures Run(d, joint).db == PlatformLaws.After(d.policy, Run(d, start).db, steps) && Run(d, joint).edge == Run(d, start).edge
  {
    if steps == [] {
      joint := start;
    } else {
      var earlier := PlatformRunsEmbed(d, start, steps[..|steps| - 1]);
      var last := PlatformStep(steps[|steps| - 1]);
      RunExtends(d, earlier, last);
      joint := earlier + [last];
    }
  }
}
