/**
 What a record means to the platform: the message the edge publishes, field by field, and what its first delivery
 does to the tables.
 */
module DeliveryEffects {
  import opened Prelude
  import opened Text
  import opened EdgeModel
  import opened Pipeline
  import AlertEffects
  import EndToEnd
  import Ingestion
  import Platform
  import PlatformLaws
  import SmsMessages
  import Wire

  // ---- The wire ----

  /** A code is told by its name. */
  lemma NamesAreDistinct(c: Option<Code>, d: Option<Code>)
    ensures Wire.CodeText(c) == Wire.CodeText(d) ==> c == d
    ensures Wire.CodeText(c) == "" <==> c.None?
    ensures Wire.CodeText(c) == "BATTERY_OVERHEAT" <==> c == Some(BatteryOverheat)
    ensures Wire.CodeText(c) == "INVERTER_FAILURE" <==> c == Some(InverterFailure)
    ensures Wire.CodeText(c) == "TAMPER_DETECTED" <==> c == Some(TamperDetected)
    ensures Wire.CodeText(c) == "SITE_OUTAGE" <==> c == Some(SiteOutage)
  {
    FirstLetter(c);
    FirstLetter(d);
  }

  lemma FirstLetter(c: Option<Code>)
    ensures c.None? ==> Wire.CodeText(c) == ""
    ensures c.Some? ==> Wire.CodeText(c) != ""
    ensures c == Some(BatteryOverheat) ==> Wire.CodeText(c)[0] == 'B'
    ensures c == Some(InverterFailure) ==> Wire.CodeText(c)[0] == 'I'
    ensures c == Some(TamperDetected) ==> Wire.CodeText(c)[0] == 'T'
    ensures c == Some(SiteOutage) ==> Wire.CodeText(c)[0] == 'S'
  {
  }

  /** The message that a wire record is. */
  predicate Carries(w: Ingestion.IngestRecord, m: Message) {
    && w.sequence == m.sequence && w.deviceId == m.event.deviceId && w.topic == m.event.topic && w.assetType == m.event.assetType
    && w.payload == m.event.payload && w.priority == m.event.priority && w.replay == m.replay
    && w.eventAt == m.event.eventAt && w.receivedAt == m.event.receivedAt
  }

  /**
   What a request puts on the topic are the pipeline's messages: no field is lost or altered on the wire, and it
   names its sender.
   */
  lemma WireCarriesMessage(from: Wire.Sender, r: Record, uploadedAt: int)
    ensures var w := Wire.AsWire(from, r, uploadedAt);
      && Carries(w, AsMessage(r)) && w.siteId == from.siteId && w.gatewayId == from.gatewayId && w.uploadedAt == Some(uploadedAt)
      && w.criticalValue == r.row.value
      && (AsMessage(r).code == Some(BatteryOverheat) <==> w.criticalCode == "BATTERY_OVERHEAT")
      && (AsMessage(r).code == Some(InverterFailure) <==> w.criticalCode == "INVERTER_FAILURE")
      && (AsMessage(r).code == Some(TamperDetected) <==> w.criticalCode == "TAMPER_DETECTED")
      && (AsMessage(r).code == Some(SiteOutage) <==> w.criticalCode == "SITE_OUTAGE")
      && (AsMessage(r).code.None? <==> w.criticalCode == "")
  {
    NamesAreDistinct(r.row.code, r.row.code);
  }

  // ---- A first delivery ----

  predicate TypeNamed(name: string, t: Platform.AssetType) {
    && (t.SmartMeter? <==> name != "battery_bms" && name != "solar_inverter")
    && (t.BatteryBms? <==> name == "battery_bms")
    && (t.SolarInverter? <==> name == "solar_inverter")
  }

  /** The engine has not taken this record before, and takes it now. */
  predicate TakesFirst(d: EndToEnd.Deployment, sys: EndToEnd.System, m: Message) {
    SmsMessages.EventKey(d.siteId, m.sequence) !in sys.db.dedup && EndToEnd.IngestOf(d, sys.db, m).Ok?
  }

  lemma DeliveryIsTaken(d: EndToEnd.Deployment, sys: EndToEnd.System, m: Message)
    requires TakesFirst(d, sys, m)
    ensures var r := EndToEnd.ReadingOf(d, m);
      && AlertEffects.Fresh(sys.db, r) && AlertEffects.Taken(d.policy, sys.db, r, m.code) == Ok(EndToEnd.Deliver(d, sys, m).db)
  {
  }

  /**
   It notes the asset as the record names it, stores the reading once under the record's event key, and moves
   nothing at the edge.
   */
  lemma DeliveryIsStored(d: EndToEnd.Deployment, sys: EndToEnd.System, m: Message, t: Platform.AssetType)
    requires TakesFirst(d, sys, m) && m.code.None? && TypeNamed(m.event.assetType, t)
    ensures var (sys', key) := (EndToEnd.Deliver(d, sys, m), SmsMessages.EventKey(d.siteId, m.sequence));
      && sys'.edge == sys.edge && sys'.decided == sys.decided + [m]
      && sys'.db.assets == sys.db.assets[m.event.deviceId := Platform.Asset(d.siteId, t)]
      && sys'.db.readings == sys.db.readings + multiset{key} && sys'.db.dedup == sys.db.dedup + {key}
      && sys'.db.events == sys.db.events && sys'.db.receipts == sys.db.receipts && sys'.db.sites == sys.db.sites
  {
    DeliveryIsTaken(d, sys, m);
    AlertEffects.ReadingIsStored(d.policy, sys.db, EndToEnd.ReadingOf(d, m));
  }

  /**
   A payload at or above its device's threshold leaves an alert of the record or an open one of the device: a known
   one, or one new one dated when it was measured.
   */
  lemma HotDeliveryAlerts(d: EndToEnd.Deployment, sys: EndToEnd.System, m: Message, t: Platform.AssetType, threshold: real, kind: Platform.Kind)
    requires PlatformLaws.Inv(sys.db) && TakesFirst(d, sys, m) && m.code.None? && m.event.eventAt.Some?
    requires TypeNamed(m.event.assetType, t) && AlertEffects.Critical(d.policy, t, threshold, kind)
    requires d.temperatureOf(m.event.payload).Some? && d.temperatureOf(m.event.payload).value >= threshold
    ensures var (db, db', device, source) := (sys.db, EndToEnd.Deliver(d, sys, m).db, m.event.deviceId, Some(SmsMessages.EventKey(d.siteId, m.sequence)));
      var known := AlertEffects.HasAlertOf(db, source) || AlertEffects.HasOpenAlert(db, d.siteId, device, kind);
      && (AlertEffects.HasAlertOf(db', source) || AlertEffects.HasOpenAlert(db', d.siteId, device, kind))
      && (known ==> AlertEffects.SameAlerts(db, db'))
      && (!known ==> AlertEffects.OneMoreAlert(db, db', Platform.Alert(device, d.siteId, kind, m.event.eventAt.value, source, Platform.Open)))
  {
    DeliveryIsTaken(d, sys, m);
    AlertEffects.HotReadingAlerts(d.policy, sys.db, EndToEnd.ReadingOf(d, m), threshold, kind);
  }

  /**
   A coded record that names an asset of the right type is stored, stamped as replayed, and linked to an alert of
   the kind its code stands for.
   */
  lemma CodedDeliveryAlerts(d: EndToEnd.Deployment, sys: EndToEnd.System, m: Message, t: Platform.AssetType, kind: Platform.Kind)
    requires PlatformLaws.Inv(sys.db) && TakesFirst(d, sys, m) && m.code.Some? && m.event.eventAt.Some? && d.siteId != ""
    requires 1 <= m.sequence < INT64_LIMIT && TypeNamed(m.event.assetType, t)
    requires AlertEffects.Means(m.code.value, kind) && AlertEffects.MayRaise(m.code.value, t)
    requires m.code.value == BatteryOverheat ==> d.temperatureOf(m.event.payload).Some?
    requires SmsMessages.EventKey(d.siteId, m.sequence) !in sys.db.events
    ensures var (db, db', key) := (sys.db, EndToEnd.Deliver(d, sys, m).db, SmsMessages.EventKey(d.siteId, m.sequence));
      var asset := if m.code.value == SiteOutage then "site" else m.event.deviceId;
      && key in db'.events && db'.events == db.events[key := db'.events[key]]
      && db'.events[key] == Platform.FallbackRow(d.siteId, m.sequence, asset, m.code.value, db'.events[key].alertId, true)
      && AlertEffects.LinkedAlert(db, db', d.siteId, asset, kind, m.event.eventAt.value, key, db'.events[key].alertId)
  {
    var r := EndToEnd.ReadingOf(d, m);
    var asset := if m.code.value == SiteOutage then "site" else m.event.deviceId;
    var e := Platform.SmsEvent(d.siteId, asset, m.sequence, m.code.value, r.temperature, m.event.eventAt.value);
    DeliveryIsTaken(d, sys, m);
    AlertEffects.CodedReadingIsAlarm(d.policy, r, m.code.value, kind);
    assert PlatformLaws.Replays(e, r);
    AlertEffects.FirstReplayAlerts(d.policy, sys.db, e, r, kind);
  }
}
