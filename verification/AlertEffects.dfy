/** What an ordinary reading, a critical reading and an SMS do to the alert tables, said over the tables. */
module AlertEffects {
  import opened Prelude
  import opened Text
  import opened EdgeModel
  import opened Platform
  import opened PlatformLaws
  import SmsMessages

  // ---- The policy, as the operator configures it ----

  /** The threshold and the alert kind of each asset type. */
  predicate Critical(policy: Policy, t: AssetType, threshold: real, kind: Kind) {
    && (t.SmartMeter? ==> threshold == policy.smartMeter && kind == InternalTemperature)
    && (t.BatteryBms? ==> threshold == policy.battery && kind == BatteryOverheating)
    && (t.SolarInverter? ==> threshold == policy.inverter && kind == InternalTemperature)
  }

  predicate OpenAlertOf(a: Alert, siteId: string, assetId: string, kind: Kind) {
    a.siteId == siteId && a.assetId == assetId && a.kind == kind && a.status.Open?
  }

  ghost predicate HasOpenAlert(db: Db, siteId: string, assetId: string, kind: Kind) {
    exists id :: id in db.alerts && OpenAlertOf(db.alerts[id], siteId, assetId, kind)
  }

  ghost predicate HasAlertOf(db: Db, source: Option<string>) {
    source.Some? && exists id :: id in db.alerts && db.alerts[id].source == source
  }

  /** The delivery has not been taken before, and carries no alarm code. */
  predicate Fresh(db: Db, r: Reading) {
    r.source.Some? ==> r.source.value !in db.dedup
  }

  function Taken(policy: Policy, db: Db, r: Reading, code: Option<Code>): Result<Db, Failure> {
    Ingest(db, r, Decide(policy, r, code))
  }

  ghost predicate BelowNext(db: Db) {
    forall id | id in db.alerts :: id < db.nextAlert
  }

  /** One new open alert and its message, nothing else. */
  predicate OneMoreAlert(db: Db, db': Db, a: Alert) {
    && db'.alerts == db.alerts[db.nextAlert := a] && db'.nextAlert == db.nextAlert + 1
    && db'.outbox == db.outbox + multiset{AlertOpened(db.nextAlert)} && db'.history == db.history
  }

  predicate SameAlerts(db: Db, db': Db) {
    db'.alerts == db.alerts && db'.nextAlert == db.nextAlert && db'.outbox == db.outbox && db'.history == db.history
  }

  // ---- Ordinary readings ----

  /** The tables once the claim, the asset and the reading are written. */
  function WithReading(db: Db, r: Reading): Db {
    db.(assets := db.assets[r.assetId := Asset(r.siteId, r.assetType)],
        dedup := if r.source.Some? then db.dedup + {r.source.value} else db.dedup,
        readings := if r.source.Some? then db.readings + multiset{r.source.value} else db.readings)
  }

  lemma ClaimWrites(db: Db, r: Reading)
    ensures Claimed(db, r) == if r.siteId in db.sites then Ok(WithReading(db, r)) else Err(Constraint)
  {
  }

  lemma TakenAfterClaim(policy: Policy, db: Db, r: Reading, code: Option<Code>)
    requires Fresh(db, r)
    ensures Taken(policy, db, r, code) ==
      if r.siteId in db.sites then ApplyOutcome(WithReading(db, r), r, Decide(policy, r, code)) else Err(Constraint)
  {
    ClaimWrites(db, r);
  }

  /** The decision of a reading at or above its threshold. */
  function HotDecision(r: Reading, kind: Kind): Decision {
    Decision(r.assetId, r.siteId, kind, r.at, r.source)
  }

  lemma HotOutcome(policy: Policy, db: Db, r: Reading, threshold: real, kind: Kind)
    requires Critical(policy, r.assetType, threshold, kind) && r.temperature.Some? && r.temperature.value >= threshold
    ensures ApplyOutcome(db, r, Decide(policy, r, None)) == FindOrOpen(db, HotDecision(r, kind))
  {
  }

  /** Resolving what is open, if anything is. */
  function Cooled(db: Db, r: Reading, kind: Kind, note: Note): Result<Db, Failure> {
    var open := FindOpen(db, r.siteId, r.assetId, kind);
    if open.None? then Ok(db) else ResolveAlert(db, open.value, r.at, note, Engine)
  }

  lemma CoolOutcome(policy: Policy, db: Db, r: Reading, threshold: real, kind: Kind)
    requires Critical(policy, r.assetType, threshold, kind)
    requires r.temperature.Some? && r.temperature.value < threshold && r.temperature.value < threshold - policy.margin
    ensures ApplyOutcome(db, r, Decide(policy, r, None)) ==
      Cooled(db, r, kind, Recovered(r.temperature.value, threshold - policy.margin))
  {
  }

  lemma LukewarmOutcome(policy: Policy, db: Db, r: Reading, threshold: real, kind: Kind)
    requires Critical(policy, r.assetType, threshold, kind)
    requires r.temperature.Some? ==> threshold - policy.margin <= r.temperature.value < threshold
    ensures ApplyOutcome(db, r, Decide(policy, r, None)) == Ok(db)
  {
  }

  /** Tables that a decision never touches. */
  predicate OffAlerts(db: Db, db': Db) {
    && db'.assets == db.assets && db'.dedup == db.dedup && db'.readings == db.readings
    && db'.events == db.events && db'.receipts == db.receipts && db'.sites == db.sites
  }

  lemma PlainOutcomeIsOffAlerts(policy: Policy, db: Db, r: Reading)
    requires ApplyOutcome(db, r, Decide(policy, r, None)).Ok?
    ensures OffAlerts(db, ApplyOutcome(db, r, Decide(policy, r, None)).value)
  {
    match Decide(policy, r, None) {
      case OpenOutcome(d) => OpeningIsOffAlerts(db, d);
      case ResolveOutcome(kind, note) => RecoveryIsOffAlerts(db, r, kind, note);
      case Unchanged =>
    }
  }

  lemma OpeningIsOffAlerts(db: Db, d: Decision)
    requires FindOrOpen(db, d).Ok?
    ensures OffAlerts(db, FindOrOpen(db, d).value)
  {
  }

  lemma RecoveryIsOffAlerts(db: Db, r: Reading, kind: Kind, note: Note)
    requires ApplyOutcome(db, r, ResolveOutcome(kind, note)).Ok?
    ensures OffAlerts(db, ApplyOutcome(db, r, ResolveOutcome(kind, note)).value)
  {
  }

  /** A delivery that is taken stores its asset, its reading and its claim, and touches no SMS table. */
  lemma ReadingIsStored(policy: Policy, db: Db, r: Reading)
    requires Fresh(db, r) && Taken(policy, db, r, None).Ok?
    ensures var db' := Taken(policy, db, r, None).value;
      && db'.assets == db.assets[r.assetId := Asset(r.siteId, r.assetType)]
      && (r.source.Some? ==> db'.dedup == db.dedup + {r.source.value} && db'.readings == db.readings + multiset{r.source.value})
      && (r.source.None? ==> db'.dedup == db.dedup && db'.readings == db.readings)
      && db'.events == db.events && db'.receipts == db.receipts && db'.sites == db.sites
  {
    TakenAfterClaim(policy, db, r, None);
    PlainOutcomeIsOffAlerts(policy, WithReading(db, r), r);
  }

  lemma NoneOpen(db: Db, siteId: string, assetId: string, kind: Kind)
    requires BelowNext(db)
    ensures FindOpen(db, siteId, assetId, kind).None? <==> !HasOpenAlert(db, siteId, assetId, kind)
  {
    var found := FindOpen(db, siteId, assetId, kind);
    if found.Some? {
      assert OpenAlertOf(db.alerts[found.value], siteId, assetId, kind);
    }
  }

  lemma NoneOfSource(db: Db, source: string)
    requires BelowNext(db)
    ensures FindBySource(db, source).None? <==> !HasAlertOf(db, Some(source))
  {
    var found := FindBySource(db, source);
    if found.Some? {
      assert db.alerts[found.value].source == Some(source);
    }
  }

  /**
   At or above its threshold a reading finds an alert of its own source or an open one of its asset and kind, or
   opens exactly one.
   */
  lemma HotReadingAlerts(policy: Policy, db: Db, r: Reading, threshold: real, kind: Kind)
    requires BelowNext(db) && Fresh(db, r) && Critical(policy, r.assetType, threshold, kind)
    requires r.temperature.Some? && r.temperature.value >= threshold
    requires Taken(policy, db, r, None).Ok?
    ensures var db' := Taken(policy, db, r, None).value;
      var known := HasAlertOf(db, r.source) || HasOpenAlert(db, r.siteId, r.assetId, kind);
      && (HasAlertOf(db', r.source) || HasOpenAlert(db', r.siteId, r.assetId, kind))
      && (known ==> SameAlerts(db, db'))
      && (!known ==> OneMoreAlert(db, db', Alert(r.assetId, r.siteId, kind, r.at, r.source, Open)))
  {
    TakenAfterClaim(policy, db, r, None);
    HotOutcome(policy, WithReading(db, r), r, threshold, kind);
    HotDecisionAlerts(WithReading(db, r), r, kind);
    SameKnowledge(db, WithReading(db, r), r, kind);
  }

  lemma HotDecisionAlerts(db: Db, r: Reading, kind: Kind)
    requires BelowNext(db) && FindOrOpen(db, HotDecision(r, kind)).Ok?
    ensures var db' := FindOrOpen(db, HotDecision(r, kind)).value;
      var known := HasAlertOf(db, r.source) || HasOpenAlert(db, r.siteId, r.assetId, kind);
      && (HasAlertOf(db', r.source) || HasOpenAlert(db', r.siteId, r.assetId, kind))
      && (known ==> SameAlerts(db, db'))
      && (!known ==> OneMoreAlert(db, db', Alert(r.assetId, r.siteId, kind, r.at, r.source, Open)))
  {
    NoneOpen(db, r.siteId, r.assetId, kind);
    if r.source.Some? {
      NoneOfSource(db, r.source.value);
    }
    var db' := FindOrOpen(db, HotDecision(r, kind)).value;
    if db.nextAlert in db'.alerts {
      assert OpenAlertOf(db'.alerts[db.nextAlert], r.siteId, r.assetId, kind);
    }
  }

  lemma SameKnowledge(db: Db, db': Db, r: Reading, kind: Kind)
    requires db'.alerts == db.alerts
    ensures HasAlertOf(db', r.source) <==> HasAlertOf(db, r.source)
    ensures HasOpenAlert(db', r.siteId, r.assetId, kind) <==> HasOpenAlert(db, r.siteId, r.assetId, kind)
  {
  }

  /** A delivery taken before changes nothing, whatever it carries. */
  lemma RepeatedReadingIsNothing(policy: Policy, db: Db, r: Reading, code: Option<Code>)
    requires !Fresh(db, r)
    ensures Taken(policy, db, r, code) == Ok(db)
  {
  }

  /**
   Below its threshold, by more than the margin, a reading resolves the open alert of its asset and kind, if there
   is one, and leaves every other alert alone.
   */
  lemma CoolReadingResolves(policy: Policy, db: Db, r: Reading, threshold: real, kind: Kind)
    requires Inv(db) && Fresh(db, r) && Critical(policy, r.assetType, threshold, kind)
    requires r.temperature.Some? && r.temperature.value < threshold && r.temperature.value < threshold - policy.margin
    requires Taken(policy, db, r, None).Ok?
    ensures var db' := Taken(policy, db, r, None).value;
      var note := Recovered(r.temperature.value, threshold - policy.margin);
      && !HasOpenAlert(db', r.siteId, r.assetId, kind)
      && db'.alerts.Keys == db.alerts.Keys
      && (forall id | id in db.alerts :: db'.alerts[id] ==
            if OpenAlertOf(db.alerts[id], r.siteId, r.assetId, kind) then db.alerts[id].(status := Resolved(r.at, note, Engine)) else db.alerts[id])
      && (!HasOpenAlert(db, r.siteId, r.assetId, kind) ==> SameAlerts(db, db'))
  {
    var note := Recovered(r.temperature.value, threshold - policy.margin);
    TakenAfterClaim(policy, db, r, None);
    CoolOutcome(policy, WithReading(db, r), r, threshold, kind);
    CooledAlerts(WithReading(db, r), r, kind, note);
    SameKnowledge(db, WithReading(db, r), r, kind);
  }

  lemma CooledAlerts(db: Db, r: Reading, kind: Kind, note: Note)
    requires AlertsKept(db.alerts, db.nextAlert) && Cooled(db, r, kind, note).Ok?
    ensures var db' := Cooled(db, r, kind, note).value;
      && !HasOpenAlert(db', r.siteId, r.assetId, kind)
      && db'.alerts.Keys == db.alerts.Keys
      && (forall id | id in db.alerts :: db'.alerts[id] ==
            if OpenAlertOf(db.alerts[id], r.siteId, r.assetId, kind) then db.alerts[id].(status := Resolved(r.at, note, Engine)) else db.alerts[id])
      && (!HasOpenAlert(db, r.siteId, r.assetId, kind) ==> SameAlerts(db, db'))
  {
    NoneOpen(db, r.siteId, r.assetId, kind);
    if FindOpen(db, r.siteId, r.assetId, kind).Some? {
      var found := FindOpen(db, r.siteId, r.assetId, kind).value;
      forall id | id in db.alerts && OpenAlertOf(db.alerts[id], r.siteId, r.assetId, kind) ensures id == found {
        assert SameOpen(db.alerts[found], db.alerts[id]);
      }
    }
  }

  /** And says so once, in the history and to the outbox. */
  lemma CoolReadingAnnounces(policy: Policy, db: Db, r: Reading, threshold: real, kind: Kind, id: nat)
    requires Inv(db) && Fresh(db, r) && Critical(policy, r.assetType, threshold, kind)
    requires r.temperature.Some? && r.temperature.value < threshold && r.temperature.value < threshold - policy.margin
    requires Taken(policy, db, r, None).Ok? && id in db.alerts && OpenAlertOf(db.alerts[id], r.siteId, r.assetId, kind)
    ensures var db' := Taken(policy, db, r, None).value;
      && db'.outbox == db.outbox + multiset{AlertResolved(id)}
      && db'.history == db.history + multiset{HistoryRow(id, r.at, Recovered(r.temperature.value, threshold - policy.margin), Engine)}
  {
    TakenAfterClaim(policy, db, r, None);
    CoolOutcome(policy, WithReading(db, r), r, threshold, kind);
    OpenIsFound(WithReading(db, r), r, kind, id);
  }

  lemma OpenIsFound(db: Db, r: Reading, kind: Kind, id: nat)
    requires AlertsKept(db.alerts, db.nextAlert) && id in db.alerts && OpenAlertOf(db.alerts[id], r.siteId, r.assetId, kind)
    ensures FindOpen(db, r.siteId, r.assetId, kind) == Some(id)
  {
    NoneOpen(db, r.siteId, r.assetId, kind);
    assert SameOpen(db.alerts[id], db.alerts[FindOpen(db, r.siteId, r.assetId, kind).value]);
  }

  /** Between recovery and threshold, or without a temperature, a reading changes no alert. */
  lemma LukewarmReadingIsQuiet(policy: Policy, db: Db, r: Reading, threshold: real, kind: Kind)
    requires Fresh(db, r) && Critical(policy, r.assetType, threshold, kind)
    requires r.temperature.Some? ==> threshold - policy.margin <= r.temperature.value < threshold
    requires Taken(policy, db, r, None).Ok?
    ensures SameAlerts(db, Taken(policy, db, r, None).value)
  {
    TakenAfterClaim(policy, db, r, None);
    LukewarmOutcome(policy, WithReading(db, r), r, threshold, kind);
  }

  /**
   An ordinary delivery is refused exactly if its site is unknown, or it would open a threshold alert for the
   reserved site asset.
   */
  lemma ReadingRefusedExactly(policy: Policy, db: Db, r: Reading, threshold: real, kind: Kind)
    requires Inv(db) && Fresh(db, r) && Critical(policy, r.assetType, threshold, kind)
    ensures Taken(policy, db, r, None).Err? <==>
      || r.siteId !in db.sites
      || (r.temperature.Some? && r.temperature.value >= threshold && r.assetId == "site"
          && !HasAlertOf(db, r.source) && !HasOpenAlert(db, r.siteId, r.assetId, kind))
  {
    var stored := WithReading(db, r);
    TakenAfterClaim(policy, db, r, None);
    SameKnowledge(db, stored, r, kind);
    if r.siteId !in db.sites {
    } else if r.temperature.Some? && r.temperature.value >= threshold {
      HotOutcome(policy, stored, r, threshold, kind);
      HotRefusedExactly(stored, r, kind);
    } else if r.temperature.Some? && r.temperature.value < threshold && r.temperature.value < threshold - policy.margin {
      CoolOutcome(policy, stored, r, threshold, kind);
    } else {
      LukewarmOutcome(policy, stored, r, threshold, kind);
    }
  }

  lemma HotRefusedExactly(db: Db, r: Reading, kind: Kind)
    requires BelowNext(db) && r.siteId in db.sites && r.assetId in db.assets && kind != SiteDown
    ensures FindOrOpen(db, HotDecision(r, kind)).Err? <==>
      r.assetId == "site" && !HasAlertOf(db, r.source) && !HasOpenAlert(db, r.siteId, r.assetId, kind)
  {
    NoneOpen(db, r.siteId, r.assetId, kind);
    if r.source.Some? {
      NoneOfSource(db, r.source.value);
    }
  }

  /**
   An alert is inserted for a known site and asset, the reserved one exactly for a site outage, unless one of its
   asset and kind is open or an edge record's already exists.
   */
  lemma AlertInsertedExactly(db: Db, d: Decision)
    requires BelowNext(db)
    ensures var r := OpenAlert(db, d);
      var edge := d.source.Some? && |d.source.value| >= 5 && d.source.value[..5] == "edge:";
      && (r.Ok? <==>
            && d.siteId in db.sites && (d.assetId == "site" || d.assetId in db.assets) && (d.kind == SiteDown <==> d.assetId == "site")
            && !HasOpenAlert(db, d.siteId, d.assetId, d.kind) && !(edge && HasAlertOf(db, d.source)))
      && (r.Ok? ==> OneMoreAlert(db, r.value, Alert(d.assetId, d.siteId, d.kind, d.openedAt, d.source, Open)) && OffAlerts(db, r.value))
  {
    NoneOpen(db, d.siteId, d.assetId, d.kind);
    if d.source.Some? {
      NoneOfSource(db, d.source.value);
    }
  }

  // ---- Alarm codes ----

  /** The kind each alarm code stands for, and the assets it may come from. */
  predicate Means(code: Code, kind: Kind) {
    && (code == BatteryOverheat ==> kind == BatteryOverheating)
    && (code == InverterFailure ==> kind == InverterFailing)
    && (code == TamperDetected ==> kind == Tampering)
    && (code == SiteOutage ==> kind == SiteDown)
  }

  predicate MayRaise(code: Code, t: AssetType) {
    && (code == BatteryOverheat ==> t == BatteryBms)
    && (code == InverterFailure ==> t == SolarInverter)
  }

  /** The alert an event is linked to is its own, or the open one of its asset and kind, or the only new one. */
  ghost predicate LinkedAlert(db: Db, db': Db, siteId: string, assetId: string, kind: Kind, at: int, key: string, id: nat) {
    && id in db'.alerts
    && (HasAlertOf(db, Some(key)) ==> SameAlerts(db, db') && db.alerts[id].source == Some(key))
    && (!HasAlertOf(db, Some(key)) && HasOpenAlert(db, siteId, assetId, kind) ==>
          SameAlerts(db, db') && OpenAlertOf(db.alerts[id], siteId, assetId, kind))
    && (!HasAlertOf(db, Some(key)) && !HasOpenAlert(db, siteId, assetId, kind) ==>
          id == db.nextAlert && OneMoreAlert(db, db', Alert(assetId, siteId, kind, at, Some(key), Open)))
  }

  lemma FoundOrOpened(db: Db, d: Decision, key: string)
    requires BelowNext(db) && d.source == Some(key) && FindOrOpen(db, d).Ok?
    ensures LinkedAlert(db, FindOrOpen(db, d).value, d.siteId, d.assetId, d.kind, d.openedAt, key, LinkTarget(db, d))
    ensures FindOrOpen(db, d).value.events == db.events && FindOrOpen(db, d).value.receipts == db.receipts
  {
    NoneOpen(db, d.siteId, d.assetId, d.kind);
    NoneOfSource(db, key);
  }

  /** The fallback row of an event and of nothing else was added. */
  predicate StoredFor(db: Db, db': Db, e: SmsEvent, replayed: bool) {
    && KeyOf(e) in db'.events && db'.events == db.events[KeyOf(e) := db'.events[KeyOf(e)]]
    && db'.events[KeyOf(e)] == FallbackRow(e.siteId, e.sequence, e.assetId, e.code, db'.events[KeyOf(e)].alertId, replayed)
  }

  /**
   A first SMS that is accepted is stored under its key with its receipt, linked to an alert of the kind its code
   stands for.
   */
  lemma FirstSmsAlerts(db: Db, e: SmsEvent, provider: string, kind: Kind)
    requires BelowNext(db) && KeyOf(e) !in db.events && Means(e.code, kind) && ReceiveSms(db, e, provider).Ok?
    ensures var db' := ReceiveSms(db, e, provider).value;
      && StoredFor(db, db', e, false)
      && LinkedAlert(db, db', e.siteId, e.assetId, kind, e.at, KeyOf(e), db'.events[KeyOf(e)].alertId)
      && provider in db'.receipts && (provider !in db.receipts ==> db'.receipts == db.receipts[provider := KeyOf(e)])
  {
    FoundOrOpened(db, SmsDecision(e), KeyOf(e));
  }

  /** What the rows of a first SMS need of the tables. */
  ghost predicate RowFits(db: Db, e: SmsEvent) {
    && e.siteId in db.sites && 1 <= e.sequence < INT64_LIMIT
    && forall k | k in db.events :: db.events[k].siteId != e.siteId || db.events[k].sequence != e.sequence
  }

  /** What the receipt needs: a new provider id, none at all, or one of this very event. */
  predicate ReceiptFits(db: Db, key: string, provider: string) {
    provider !in db.receipts || provider == "" || db.receipts[provider] == key
  }

  /** A known asset of the site whose type may raise the code is never refused for it; an SMS is refused exactly for the rest. */
  lemma FirstSmsAcceptedExactly(db: Db, e: SmsEvent, provider: string, kind: Kind)
    requires BelowNext(db) && KeyOf(e) !in db.events && Means(e.code, kind)
    ensures ReceiveSms(db, e, provider).Ok? <==>
      && (e.assetId == "site" || (e.assetId in db.assets && db.assets[e.assetId].siteId == e.siteId
                                  && e.code != SiteOutage && MayRaise(e.code, db.assets[e.assetId].assetType)))
      && (e.code == BatteryOverheat ==> e.temperature.Some?)
      && ((e.code == SiteOutage <==> e.assetId == "site")
          || HasAlertOf(db, Some(KeyOf(e))) || HasOpenAlert(db, e.siteId, e.assetId, kind))
      && RowFits(db, e) && ReceiptFits(db, KeyOf(e), provider)
  {
    AdmissibleExactly(db, e);
    if Inadmissible(db, e).None? {
      SmsAlertExactly(db, e, kind);
    }
    if Inadmissible(db, e).None? && FindOrOpen(db, SmsDecision(e)).Ok? {
      SmsRowExactly(FindOrOpen(db, SmsDecision(e)).value, e, provider, LinkTarget(db, SmsDecision(e)));
    }
  }

  lemma AdmissibleExactly(db: Db, e: SmsEvent)
    ensures Inadmissible(db, e).None? <==>
      && (e.assetId == "site" || (e.assetId in db.assets && db.assets[e.assetId].siteId == e.siteId
                                  && e.code != SiteOutage && MayRaise(e.code, db.assets[e.assetId].assetType)))
      && (e.code == BatteryOverheat ==> e.temperature.Some?)
  {
  }

  /** An alert is found, or can be opened for a known site unless code and asset disagree about the reserved site asset. */
  lemma SmsAlertExactly(db: Db, e: SmsEvent, kind: Kind)
    requires BelowNext(db) && Means(e.code, kind) && (e.assetId == "site" || e.assetId in db.assets)
    ensures var known := HasAlertOf(db, Some(KeyOf(e))) || HasOpenAlert(db, e.siteId, e.assetId, kind);
      FindOrOpen(db, SmsDecision(e)).Ok? <==> known || (e.siteId in db.sites && (e.code == SiteOutage <==> e.assetId == "site"))
    ensures FindOrOpen(db, SmsDecision(e)).Ok? ==>
      var db' := FindOrOpen(db, SmsDecision(e)).value; db'.events == db.events && db'.receipts == db.receipts && db'.sites == db.sites
  {
    NoneOpen(db, e.siteId, e.assetId, kind);
    NoneOfSource(db, KeyOf(e));
  }

  function SmsRow(e: SmsEvent, alertId: nat): FallbackRow {
    FallbackRow(e.siteId, e.sequence, e.assetId, e.code, alertId, false)
  }

  lemma SmsRowExactly(db: Db, e: SmsEvent, provider: string, alertId: nat)
    requires KeyOf(e) !in db.events
    ensures InsertEvent(db, KeyOf(e), SmsRow(e, alertId)).Ok? <==> RowFits(db, e)
    ensures RowFits(db, e) ==>
      (RecordReceipt(InsertEvent(db, KeyOf(e), SmsRow(e, alertId)).value, KeyOf(e), provider).Ok? <==> ReceiptFits(db, KeyOf(e), provider))
  {
  }

  /** The first replay of an event stores the row stamped, linked to an alert of the kind its code stands for. */
  lemma FirstReplayAlerts(policy: Policy, db: Db, e: SmsEvent, r: Reading, kind: Kind)
    requires BelowNext(db) && Replays(e, r) && KeyOf(e) !in db.events && Fresh(db, r) && Means(e.code, kind)
    requires Taken(policy, db, r, Some(e.code)).Ok?
    ensures var db' := Taken(policy, db, r, Some(e.code)).value;
      && StoredFor(db, db', e, true)
      && LinkedAlert(db, db', e.siteId, e.assetId, kind, r.at, KeyOf(e), db'.events[KeyOf(e)].alertId)
  {
    ReplayedKey(e, r);
    var stored := Claimed(db, r).value;
    var d := CriticalDecision(r, e.code).value;
    FoundOrOpened(stored, d, KeyOf(e));
    SameLink(db, stored, FindOrOpen(stored, d).value, e.siteId, e.assetId, kind, r.at, KeyOf(e), LinkTarget(stored, d));
  }

  lemma SameLink(db: Db, stored: Db, db': Db, siteId: string, assetId: string, kind: Kind, at: int, key: string, id: nat)
    requires SameAlerts(db, stored) && LinkedAlert(stored, db', siteId, assetId, kind, at, key, id)
    ensures LinkedAlert(db, db', siteId, assetId, kind, at, key, id)
  {
    if HasAlertOf(db, Some(key)) {
      var i :| i in db.alerts && db.alerts[i].source == Some(key);
      assert stored.alerts[i].source == Some(key);
    }
    if HasOpenAlert(db, siteId, assetId, kind) {
      var i :| i in db.alerts && OpenAlertOf(db.alerts[i], siteId, assetId, kind);
      assert OpenAlertOf(stored.alerts[i], siteId, assetId, kind);
    }
  }

  /** Which readings count as alarms of a code: of the right asset type, and a battery alarm with its temperature. */
  lemma CodedReadingIsAlarm(policy: Policy, r: Reading, code: Code, kind: Kind)
    requires Means(code, kind)
    ensures var alarm := MayRaise(code, r.assetType) && (code == BatteryOverheat ==> r.temperature.Some?);
      && (alarm <==> Decide(policy, r, Some(code)).OpenCritical?)
      && (alarm ==> Decide(policy, r, Some(code)).code == code && Decide(policy, r, Some(code)).decision.kind == kind
                    && Decide(policy, r, Some(code)).decision.assetId == (if code == SiteOutage then "site" else r.assetId))
      && (!alarm ==> Decide(policy, r, Some(code)) == Decide(policy, r, None))
  {
  }

  /** The reading's source is the key of this record of its own site. */
  predicate OwnKey(r: Reading, sequence: int) {
    r.source.Some? && SmsMessages.ParseEventKey(r.source.value) == Ok((r.siteId, sequence))
  }

  /** An alarm reading whose source names no record of its own site is refused whole. */
  lemma ReplayNeedsOwnKey(policy: Policy, db: Db, r: Reading, code: Code)
    requires Fresh(db, r) && Decide(policy, r, Some(code)).OpenCritical?
    ensures Taken(policy, db, r, Some(code)).Ok? ==> exists sequence :: OwnKey(r, sequence)
  {
    TakenAfterClaim(policy, db, r, Some(code));
    if Taken(policy, db, r, Some(code)).Ok? {
      assert OwnKey(r, SmsMessages.ParseEventKey(r.source.value).value.1);
    }
  }

  /** The row of an event is there, and is of this record, asset and code. */
  predicate SameEvent(db: Db, key: string, siteId: string, sequence: int, assetId: string, code: Code) {
    key in db.events && db.events[key].siteId == siteId && db.events[key].sequence == sequence
    && db.events[key].assetId == assetId && db.events[key].code == code
  }

  /**
   A replay repeats the event it finds, or is the first of its record with an alert that is known or may be opened;
   in every other case it is refused whole.
   */
  lemma ReplayAcceptedExactly(policy: Policy, db: Db, r: Reading, code: Code, kind: Kind, sequence: int)
    requires BelowNext(db) && Fresh(db, r) && Means(code, kind) && OwnKey(r, sequence)
    requires MayRaise(code, r.assetType) && (code == BatteryOverheat ==> r.temperature.Some?)
    ensures var (key, asset) := (r.source.value, if code == SiteOutage then "site" else r.assetId);
      Taken(policy, db, r, Some(code)).Ok? <==>
        && r.siteId in db.sites
        && (SameEvent(db, key, r.siteId, sequence, asset, code)
            || (&& key !in db.events && (forall k | k in db.events :: db.events[k].siteId != r.siteId || db.events[k].sequence != sequence)
                && (HasAlertOf(db, Some(key)) || HasOpenAlert(db, r.siteId, asset, kind) || (code == SiteOutage <==> asset == "site"))))
  {
    TakenAfterClaim(policy, db, r, Some(code));
    CodedReadingIsAlarm(policy, r, code, kind);
    if r.siteId in db.sites {
      var (stored, asset) := (WithReading(db, r), if code == SiteOutage then "site" else r.assetId);
      ReplayedExactly(stored, r, Decide(policy, r, Some(code)).decision, code, sequence);
      SameAlertKnowledge(db, stored, r.source, r.siteId, asset, kind);
    }
  }

  lemma SameAlertKnowledge(db: Db, db': Db, source: Option<string>, siteId: string, assetId: string, kind: Kind)
    requires db'.alerts == db.alerts
    ensures HasAlertOf(db', source) <==> HasAlertOf(db, source)
    ensures HasOpenAlert(db', siteId, assetId, kind) <==> HasOpenAlert(db, siteId, assetId, kind)
  {
  }

  lemma ReplayedExactly(db: Db, r: Reading, d: Decision, code: Code, sequence: int)
    requires BelowNext(db) && OwnKey(r, sequence) && d.source == r.source && d.siteId == r.siteId
    requires r.siteId in db.sites && (d.assetId == "site" || d.assetId in db.assets)
    ensures var key := r.source.value;
      ReplayCritical(db, r, d, code).Ok? <==>
        || SameEvent(db, key, r.siteId, sequence, d.assetId, code)
        || (&& key !in db.events && (forall k | k in db.events :: db.events[k].siteId != r.siteId || db.events[k].sequence != sequence)
            && (HasAlertOf(db, Some(key)) || HasOpenAlert(db, d.siteId, d.assetId, d.kind) || (d.kind == SiteDown <==> d.assetId == "site")))
  {
    NoneOpen(db, d.siteId, d.assetId, d.kind);
    NoneOfSource(db, r.source.value);
    KeysAreInRange(r.source.value, r.siteId, sequence);
  }

  lemma KeysAreInRange(key: string, siteId: string, sequence: int)
    requires SmsMessages.ParseEventKey(key) == Ok((siteId, sequence))
    ensures 1 <= sequence < INT64_LIMIT
  {
  }

  /**
   Recording a replay inserts a row the tables allow, or stamps the same row linked to the same alert; every other
   row is refused.
   */
  lemma ReplayRowExactly(db: Db, key: string, row: FallbackRow)
    ensures var r := RecordReplay(db, key, row);
      var same := SameEvent(db, key, row.siteId, row.sequence, row.assetId, row.code) && db.events[key].alertId == row.alertId;
      var fits := key !in db.events && row.siteId in db.sites && 1 <= row.sequence < 0x8000_0000_0000_0000
                  && forall k | k in db.events :: db.events[k].siteId != row.siteId || db.events[k].sequence != row.sequence;
      && (r.Ok? <==> same || fits)
      && (same ==> r.value == db.(events := db.events[key := db.events[key].(replayed := true)]))
      && (fits ==> r.value == db.(events := db.events[key := row]))
  {
  }

  // ---- Users ----

  /** A user closes any open alert, once, with the words given; an unknown or closed one is refused. */
  lemma UserResolves(policy: Policy, db: Db, id: nat, at: int, text: string, user: string)
    ensures var db' := Apply(policy, db, UserStep(id, at, text, user));
      if id in db.alerts && db.alerts[id].status.Open? then
        && db'.alerts == db.alerts[id := db.alerts[id].(status := Resolved(at, Written(text), User(user)))]
        && db'.history == db.history + multiset{HistoryRow(id, at, Written(text), User(user))}
        && db'.outbox == db.outbox + multiset{AlertResolved(id)}
      else db' == db
  {
  }
}
