/**
 The alert lifecycle and the linkage of critical events, over every interleaving of
 SMS arrivals, replays, ordinary readings and resolutions.
 */
module PlatformLaws {
  import opened Prelude
  import opened Text
  import opened EdgeModel
  import opened Platform
  import SmsMessages

  // ---- The invariant ----

  ghost predicate AlertsKept(alerts: map<nat, Alert>, nextAlert: nat) {
    && (forall id | id in alerts :: id < nextAlert)
    && (forall i, j | i in alerts && j in alerts && SameOpen(alerts[i], alerts[j]) :: i == j)
    && (forall i, j | i in alerts && j in alerts && SameEdgeSource(alerts[i], alerts[j]) :: i == j)
  }

  predicate SameOpen(a: Alert, b: Alert) {
    a.status.Open? && IsOpen(b, a.siteId, a.assetId, a.kind)
  }

  predicate SameEdgeSource(a: Alert, b: Alert) {
    EdgeSource(a.source) && b.source == a.source
  }

  /** One opened message per alert, one resolved message per resolved alert, and no others. */
  ghost predicate MessagesKept(alerts: map<nat, Alert>, outbox: multiset<Message>) {
    forall id: nat ::
      && outbox[AlertOpened(id)] == (if id in alerts then 1 else 0)
      && outbox[AlertResolved(id)] == (if id in alerts && alerts[id].status.Resolved? then 1 else 0)
  }

  /** One history row per resolved alert, saying what the alert says, and no others. */
  ghost predicate HistoryKept(alerts: map<nat, Alert>, history: multiset<HistoryRow>) {
    forall row: HistoryRow ::
      history[row] == if row.alertId in alerts && alerts[row.alertId].status == Resolved(row.at, row.note, row.by_) then 1 else 0
  }

  ghost predicate LinksKept(alerts: map<nat, Alert>, events: map<string, FallbackRow>) {
    forall key | key in events :: events[key].alertId in alerts
  }

  ghost predicate ReceiptsKept(events: map<string, FallbackRow>, receipts: map<string, string>) {
    forall p | p in receipts :: receipts[p] in events
  }

  ghost predicate AppliedOnce(readings: multiset<string>, dedup: set<string>) {
    forall source: string :: readings[source] == if source in dedup then 1 else 0
  }

  ghost predicate Inv(db: Db) {
    && AlertsKept(db.alerts, db.nextAlert)
    && MessagesKept(db.alerts, db.outbox)
    && HistoryKept(db.alerts, db.history)
    && LinksKept(db.alerts, db.events)
    && ReceiptsKept(db.events, db.receipts)
    && AppliedOnce(db.readings, db.dedup)
  }

  // ---- Evolution ----

  /** The same alert later: its identity is fixed, and once resolved it never changes again. */
  predicate SameAlert(a: Alert, b: Alert) {
    && a.assetId == b.assetId && a.siteId == b.siteId && a.kind == b.kind && a.openedAt == b.openedAt && a.source == b.source
    && (a.status.Resolved? ==> b.status == a.status)
  }

  /** The same fallback row later: identity and linkage are fixed; it may have been stamped by a replay. */
  predicate SameEvent(a: FallbackRow, b: FallbackRow) {
    b == a || b == a.(replayed := true)
  }

  ghost predicate Evolves(db: Db, db': Db) {
    && db.nextAlert <= db'.nextAlert
    && (forall id | id in db.alerts :: id in db'.alerts && SameAlert(db.alerts[id], db'.alerts[id]))
    && (forall key | key in db.events :: key in db'.events && SameEvent(db.events[key], db'.events[key]))
    && (forall p | p in db.receipts :: p in db'.receipts && db'.receipts[p] == db.receipts[p])
    && db.dedup <= db'.dedup
    && db.sites <= db'.sites
  }

  lemma EvolvesTransitive(a: Db, b: Db, c: Db)
    requires Evolves(a, b) && Evolves(b, c)
    ensures Evolves(a, c)
  {
  }

  // ---- The write each transaction is made of ----

  lemma OpeningKeepsAlerts(db: Db, d: Decision)
    requires AlertsKept(db.alerts, db.nextAlert) && Insertable(db, d)
    ensures AlertsKept(OpenAlert(db, d).value.alerts, db.nextAlert + 1)
  {
    assert db.nextAlert !in db.alerts;
    forall i | i in db.alerts ensures !IsOpen(db.alerts[i], d.siteId, d.assetId, d.kind) {
    }
    forall i | i in db.alerts && EdgeSource(d.source) ensures db.alerts[i].source != d.source {
    }
  }

  lemma OpeningKeepsMessages(alerts: map<nat, Alert>, outbox: multiset<Message>, id: nat, a: Alert)
    requires MessagesKept(alerts, outbox) && id !in alerts && a.status.Open?
    ensures MessagesKept(alerts[id := a], outbox + multiset{AlertOpened(id)})
  {
    assert outbox[AlertOpened(id)] == 0;
  }

  lemma OpeningKeepsHistory(alerts: map<nat, Alert>, history: multiset<HistoryRow>, id: nat, a: Alert)
    requires HistoryKept(alerts, history) && id !in alerts && a.status.Open?
    ensures HistoryKept(alerts[id := a], history)
  {
  }

  lemma OpeningEvolves(db: Db, d: Decision)
    requires AlertsKept(db.alerts, db.nextAlert) && Insertable(db, d)
    ensures Evolves(db, OpenAlert(db, d).value)
  {
  }

  lemma FindOrOpenKeeps(db: Db, d: Decision)
    requires Inv(db) && FindOrOpen(db, d).Ok?
    ensures Inv(FindOrOpen(db, d).value) && Evolves(db, FindOrOpen(db, d).value)
    ensures LinkTarget(db, d) in FindOrOpen(db, d).value.alerts
    ensures FindOrOpen(db, d).value.events == db.events && FindOrOpen(db, d).value.dedup == db.dedup
  {
    if LinkTarget(db, d) == db.nextAlert {
      var a := Alert(d.assetId, d.siteId, d.kind, d.openedAt, d.source, Open);
      OpeningKeepsAlerts(db, d);
      OpeningKeepsMessages(db.alerts, db.outbox, db.nextAlert, a);
      OpeningKeepsHistory(db.alerts, db.history, db.nextAlert, a);
      OpeningEvolves(db, d);
    }
  }

  lemma InsertingEventKeeps(db: Db, key: string, row: FallbackRow)
    requires Inv(db) && InsertEvent(db, key, row).Ok? && row.alertId in db.alerts
    ensures Inv(InsertEvent(db, key, row).value) && Evolves(db, InsertEvent(db, key, row).value)
    ensures InsertEvent(db, key, row).value.events == db.events[key := row]
  {
  }

  lemma NewReceiptKeeps(db: Db, key: string, provider: string)
    requires Inv(db) && provider !in db.receipts && key in db.events
    ensures Inv(db.(receipts := db.receipts[provider := key])) && Evolves(db, db.(receipts := db.receipts[provider := key]))
  {
  }

  lemma ReceiptKeeps(db: Db, key: string, provider: string)
    requires Inv(db) && RecordReceipt(db, key, provider).Ok? && key in db.events
    ensures Inv(RecordReceipt(db, key, provider).value) && Evolves(db, RecordReceipt(db, key, provider).value)
    ensures RecordReceipt(db, key, provider).value.events == db.events
  {
    if provider !in db.receipts {
      NewReceiptKeeps(db, key, provider);
    }
  }

  lemma StampingKeeps(db: Db, key: string)
    requires Inv(db) && key in db.events
    ensures var db' := db.(events := db.events[key := db.events[key].(replayed := true)]); Inv(db') && Evolves(db, db')
  {
  }

  lemma RecordReplayKeeps(db: Db, key: string, row: FallbackRow)
    requires Inv(db) && RecordReplay(db, key, row).Ok? && row.alertId in db.alerts
    ensures Inv(RecordReplay(db, key, row).value) && Evolves(db, RecordReplay(db, key, row).value)
    ensures key in RecordReplay(db, key, row).value.events && RecordReplay(db, key, row).value.events[key].alertId == row.alertId
  {
    if key in db.events {
      StampingKeeps(db, key);
    } else {
      InsertingEventKeeps(db, key, row);
    }
  }

  function ResolvedAlert(a: Alert, at: int, note: Note, actor: Actor): Alert {
    a.(status := Resolved(at, note, actor))
  }

  lemma ResolvingKeepsAlerts(alerts: map<nat, Alert>, nextAlert: nat, id: nat, at: int, note: Note, actor: Actor)
    requires AlertsKept(alerts, nextAlert) && id in alerts
    ensures AlertsKept(alerts[id := ResolvedAlert(alerts[id], at, note, actor)], nextAlert)
  {
    var alerts' := alerts[id := ResolvedAlert(alerts[id], at, note, actor)];
    forall i, j | i in alerts' && j in alerts' && SameOpen(alerts'[i], alerts'[j]) ensures i == j {
      assert SameOpen(alerts[i], alerts[j]);
    }
    forall i, j | i in alerts' && j in alerts' && SameEdgeSource(alerts'[i], alerts'[j]) ensures i == j {
      assert SameEdgeSource(alerts[i], alerts[j]);
    }
  }

  lemma ResolvingKeepsMessages(alerts: map<nat, Alert>, outbox: multiset<Message>, id: nat, at: int, note: Note, actor: Actor)
    requires MessagesKept(alerts, outbox) && id in alerts && alerts[id].status.Open?
    ensures MessagesKept(alerts[id := ResolvedAlert(alerts[id], at, note, actor)], outbox + multiset{AlertResolved(id)})
  {
    assert outbox[AlertResolved(id)] == 0;
  }

  lemma ResolvingKeepsHistory(alerts: map<nat, Alert>, history: multiset<HistoryRow>, id: nat, at: int, note: Note, actor: Actor)
    requires HistoryKept(alerts, history) && id in alerts && alerts[id].status.Open?
    ensures HistoryKept(alerts[id := ResolvedAlert(alerts[id], at, note, actor)], history + multiset{HistoryRow(id, at, note, actor)})
  {
    assert history[HistoryRow(id, at, note, actor)] == 0;
  }

  lemma ResolvingEvolves(db: Db, id: nat, at: int, note: Note, actor: Actor)
    requires ResolveAlert(db, id, at, note, actor).Ok?
    ensures Evolves(db, ResolveAlert(db, id, at, note, actor).value)
  {
  }

  lemma ResolvingKeeps(db: Db, id: nat, at: int, note: Note, actor: Actor)
    requires Inv(db) && ResolveAlert(db, id, at, note, actor).Ok?
    ensures Inv(ResolveAlert(db, id, at, note, actor).value) && Evolves(db, ResolveAlert(db, id, at, note, actor).value)
    ensures ResolveAlert(db, id, at, note, actor).value.events == db.events
  {
    ResolvingKeepsAlerts(db.alerts, db.nextAlert, id, at, note, actor);
    ResolvingKeepsMessages(db.alerts, db.outbox, id, at, note, actor);
    ResolvingKeepsHistory(db.alerts, db.history, id, at, note, actor);
    ResolvingEvolves(db, id, at, note, actor);
  }

  // ---- SMS arrival ----

  lemma ReceiveKeeps(db: Db, e: SmsEvent, provider: string)
    requires Inv(db) && ReceiveSms(db, e, provider).Ok?
    ensures Inv(ReceiveSms(db, e, provider).value) && Evolves(db, ReceiveSms(db, e, provider).value)
  {
    var key := KeyOf(e);
    if key in db.events {
      ReceiptKeeps(db, key, provider);
    } else {
      var d := SmsDecision(e);
      var row := FallbackRow(e.siteId, e.sequence, e.assetId, e.code, LinkTarget(db, d), false);
      FindOrOpenKeeps(db, d);
      var ready := FindOrOpen(db, d).value;
      InsertingEventKeeps(ready, key, row);
      var linked := InsertEvent(ready, key, row).value;
      ReceiptKeeps(linked, key, provider);
      EvolvesTransitive(db, ready, linked);
      EvolvesTransitive(db, linked, ReceiveSms(db, e, provider).value);
    }
  }

  /**
   An SMS the database already knows under another identity, or a receipt of another event, is refused; refusal
   leaves no trace.
   */
  lemma ConflictingSmsRefused(db: Db, e: SmsEvent, provider: string)
    requires KeyOf(e) in db.events
    ensures ReceiveSms(db, e, provider).Err? <==>
      || !Matches(db.events[KeyOf(e)], e.siteId, e.sequence, e.assetId, e.code)
      || (provider in db.receipts && provider != "" && db.receipts[provider] != KeyOf(e))
  {
  }

  // ---- The engine's transaction ----

  lemma ClaimKeepsAppliedOnce(readings: multiset<string>, dedup: set<string>, source: string)
    requires AppliedOnce(readings, dedup) && source !in dedup
    ensures AppliedOnce(readings + multiset{source}, dedup + {source})
  {
    assert readings[source] == 0;
  }

  /** The delivery's identity is claimed and its reading stored, together. */
  function Claimed(db: Db, r: Reading): Result<Db, Failure> {
    UpsertAsset(if r.source.Some? then db.(dedup := db.dedup + {r.source.value}) else db, r)
  }

  lemma ClaimingKeeps(db: Db, r: Reading)
    requires Inv(db) && (r.source.Some? ==> r.source.value !in db.dedup) && Claimed(db, r).Ok?
    ensures Inv(Claimed(db, r).value) && Evolves(db, Claimed(db, r).value)
  {
    if r.source.Some? {
      ClaimKeepsAppliedOnce(db.readings, db.dedup, r.source.value);
    }
  }

  lemma ReplayKeeps(db: Db, r: Reading, d: Decision, code: Code)
    requires Inv(db) && ReplayCritical(db, r, d, code).Ok?
    ensures Inv(ReplayCritical(db, r, d, code).value) && Evolves(db, ReplayCritical(db, r, d, code).value)
  {
    var key := d.source.value;
    var (siteId, sequence) := SmsMessages.ParseEventKey(key).value;
    if key in db.events && Matches(db.events[key], siteId, sequence, d.assetId, code) {
      RecordReplayKeeps(db, key, db.events[key]);
    } else {
      FindOrOpenKeeps(db, d);
      var ready := FindOrOpen(db, d).value;
      var row := FallbackRow(siteId, sequence, d.assetId, code, LinkTarget(db, d), true);
      RecordReplayKeeps(ready, key, row);
      EvolvesTransitive(db, ready, RecordReplay(ready, key, row).value);
    }
  }

  /** With a non-negative margin a reading that resolves lies at least the margin below any reading that opens. */
  lemma Hysteresis(policy: Policy, r: Reading, r': Reading, code: Option<Code>, code': Option<Code>)
    requires policy.margin >= 0.0 && r.assetType == r'.assetType
    requires Decide(policy, r, code).ResolveOutcome? && Decide(policy, r', code').OpenOutcome?
    ensures r.temperature.value + policy.margin < r'.temperature.value
  {
  }

  lemma OutcomeKeeps(policy: Policy, db: Db, r: Reading, code: Option<Code>)
    requires Inv(db) && ApplyOutcome(db, r, Decide(policy, r, code)).Ok?
    ensures Inv(ApplyOutcome(db, r, Decide(policy, r, code)).value)
    ensures Evolves(db, ApplyOutcome(db, r, Decide(policy, r, code)).value)
  {
    match Decide(policy, r, code) {
      case OpenOutcome(d) => FindOrOpenKeeps(db, d);
      case OpenCritical(d, critical) => ReplayKeeps(db, r, d, critical);
      case ResolveOutcome(kind, note) => RecoveryKeeps(db, r, kind, note);
      case Unchanged =>
    }
  }

  lemma RecoveryKeeps(db: Db, r: Reading, kind: Kind, note: Note)
    requires Inv(db) && ApplyOutcome(db, r, ResolveOutcome(kind, note)).Ok?
    ensures Inv(ApplyOutcome(db, r, ResolveOutcome(kind, note)).value)
    ensures Evolves(db, ApplyOutcome(db, r, ResolveOutcome(kind, note)).value)
  {
    var open := FindOpen(db, r.siteId, r.assetId, kind);
    if open.Some? {
      ResolvingKeeps(db, open.value, r.at, note, Engine);
    }
  }

  lemma IngestKeeps(policy: Policy, db: Db, r: Reading, code: Option<Code>)
    requires Inv(db) && Ingest(db, r, Decide(policy, r, code)).Ok?
    ensures Inv(Ingest(db, r, Decide(policy, r, code)).value)
    ensures Evolves(db, Ingest(db, r, Decide(policy, r, code)).value)
  {
    if !(r.source.Some? && r.source.value in db.dedup) {
      ClaimingKeeps(db, r);
      var stored := Claimed(db, r).value;
      OutcomeKeeps(policy, stored, r, code);
      EvolvesTransitive(db, stored, Ingest(db, r, Decide(policy, r, code)).value);
    }
  }

  // ---- Runs ----

  datatype Step =
    | SmsStep(event: SmsEvent, provider: string)
    | ReadingStep(reading: Reading, code: Option<Code>)
    | UserStep(id: nat, at: int, text: string, user: string)
    | SiteStep(siteId: string)
    | AssetStep(assetId: string, asset: Asset)

  /** A transaction commits its result, or its failure leaves everything as it was. */
  function Commit(db: Db, r: Result<Db, Failure>): Db {
    if r.Ok? then r.value else db
  }

  function Apply(policy: Policy, db: Db, step: Step): Db {
    match step
    case SmsStep(event, provider) => Commit(db, ReceiveSms(db, event, provider))
    case ReadingStep(reading, code) => Commit(db, Ingest(db, reading, Decide(policy, reading, code)))
    case UserStep(id, at, text, user) => Commit(db, ResolveAlert(db, id, at, Written(text), User(user)))
    case SiteStep(siteId) => db.(sites := db.sites + {siteId})
    case AssetStep(assetId, asset) => db.(assets := db.assets[assetId := asset])
  }

  function After(policy: Policy, db: Db, steps: seq<Step>): Db {
    if steps == [] then db
    else Apply(policy, After(policy, db, steps[..|steps| - 1]), steps[|steps| - 1])
  }

  lemma StepKeeps(policy: Policy, db: Db, step: Step)
    requires Inv(db)
    ensures Inv(Apply(policy, db, step)) && Evolves(db, Apply(policy, db, step))
  {
    match step {
      case SmsStep(event, provider) => if ReceiveSms(db, event, provider).Ok? { ReceiveKeeps(db, event, provider); }
      case ReadingStep(reading, code) =>
        if Ingest(db, reading, Decide(policy, reading, code)).Ok? { IngestKeeps(policy, db, reading, code); }
      case UserStep(id, at, text, user) =>
        if ResolveAlert(db, id, at, Written(text), User(user)).Ok? { ResolvingKeeps(db, id, at, Written(text), User(user)); }
      case _ =>
    }
  }

  lemma {:induction false} RunKeeps(policy: Policy, db: Db, steps: seq<Step>)
    requires Inv(db)
    ensures Inv(After(policy, db, steps)) && Evolves(db, After(policy, db, steps))
  {
    if steps != [] {
      RunKeeps(policy, db, steps[..|steps| - 1]);
      StepKeeps(policy, After(policy, db, steps[..|steps| - 1]), steps[|steps| - 1]);
      EvolvesTransitive(db, After(policy, db, steps[..|steps| - 1]), After(policy, db, steps));
    }
  }

  lemma EmptyKeeps()
    ensures Inv(EMPTY)
  {
  }

  // ---- The lifecycle of alerts ----

  /**
   In every reachable state: one open alert per site, asset and kind, and messages and history that match the
   alerts one to one.
   */
  lemma {:induction false} AlertLifecycle(policy: Policy, steps: seq<Step>)
    ensures var db := After(policy, EMPTY, steps);
      && (forall i, j | i in db.alerts && j in db.alerts && SameOpen(db.alerts[i], db.alerts[j]) :: i == j)
      && (forall id: nat :: db.outbox[AlertOpened(id)] == if id in db.alerts then 1 else 0)
      && (forall id: nat :: db.outbox[AlertResolved(id)] == if id in db.alerts && db.alerts[id].status.Resolved? then 1 else 0)
      && (forall row: HistoryRow :: db.history[row] ==
            if row.alertId in db.alerts && db.alerts[row.alertId].status == Resolved(row.at, row.note, row.by_) then 1 else 0)
  {
    EmptyKeeps();
    RunKeeps(policy, EMPTY, steps);
  }

  /** Once resolved an alert stays so, with the same resolution, whatever arrives later. */
  lemma {:induction false} ResolvedNeverReopens(policy: Policy, steps: seq<Step>, later: seq<Step>, id: nat)
    requires id in After(policy, EMPTY, steps).alerts && After(policy, EMPTY, steps).alerts[id].status.Resolved?
    ensures var db, db' := After(policy, EMPTY, steps), After(policy, After(policy, EMPTY, steps), later);
      id in db'.alerts && db'.alerts[id] == db.alerts[id]
  {
    EmptyKeeps();
    RunKeeps(policy, EMPTY, steps);
    RunKeeps(policy, After(policy, EMPTY, steps), later);
  }

  /**
   The alert was resolved by the engine for reading r: of its site and asset, and below the threshold of its kind
   minus the margin.
   */
  predicate ResolvedBy(policy: Policy, a: Alert, r: Reading) {
    && a.siteId == r.siteId && a.assetId == r.assetId && a.kind == ThresholdKind(r.assetType)
    && r.temperature.Some? && r.temperature.value < Threshold(policy, r.assetType) - policy.margin
    && a.status == Resolved(r.at, Recovered(r.temperature.value, Threshold(policy, r.assetType) - policy.margin), Engine)
  }

  predicate ByEngine(alerts: map<nat, Alert>, id: nat) {
    id in alerts && alerts[id].status.Resolved? && alerts[id].status.by_.Engine?
  }

  lemma OpeningResolvesNothing(db: Db, d: Decision, id: nat)
    requires FindOrOpen(db, d).Ok? && ByEngine(FindOrOpen(db, d).value.alerts, id)
    ensures ByEngine(db.alerts, id)
  {
  }

  lemma ReplayResolvesNothing(db: Db, r: Reading, d: Decision, code: Code, id: nat)
    requires ReplayCritical(db, r, d, code).Ok? && ByEngine(ReplayCritical(db, r, d, code).value.alerts, id)
    ensures ByEngine(db.alerts, id)
  {
    if FindOrOpen(db, d).Ok? && ByEngine(FindOrOpen(db, d).value.alerts, id) {
      OpeningResolvesNothing(db, d, id);
    }
  }

  lemma OutcomeResolvesForReading(policy: Policy, db: Db, r: Reading, code: Option<Code>, id: nat)
    requires var result := ApplyOutcome(db, r, Decide(policy, r, code)); result.Ok? && ByEngine(result.value.alerts, id)
    requires !ByEngine(db.alerts, id)
    ensures id in db.alerts && db.alerts[id].status.Open?
    ensures ResolvedBy(policy, ApplyOutcome(db, r, Decide(policy, r, code)).value.alerts[id], r)
  {
    match Decide(policy, r, code) {
      case OpenOutcome(d) => OpeningResolvesNothing(db, d, id);
      case OpenCritical(d, critical) => ReplayResolvesNothing(db, r, d, critical, id);
      case _ =>
    }
  }

  lemma SmsResolvesNothing(db: Db, e: SmsEvent, provider: string, id: nat)
    requires ReceiveSms(db, e, provider).Ok? && ByEngine(ReceiveSms(db, e, provider).value.alerts, id)
    ensures ByEngine(db.alerts, id)
  {
    if KeyOf(e) !in db.events {
      OpeningResolvesNothing(db, SmsDecision(e), id);
    }
  }

  lemma StepResolvesForReading(policy: Policy, db: Db, step: Step, id: nat)
    requires ByEngine(Apply(policy, db, step).alerts, id) && !ByEngine(db.alerts, id)
    ensures id in db.alerts && db.alerts[id].status.Open?
    ensures step.ReadingStep? && ResolvedBy(policy, Apply(policy, db, step).alerts[id], step.reading)
  {
    match step {
      case SmsStep(event, provider) => SmsResolvesNothing(db, event, provider, id);
      case ReadingStep(r, code) => OutcomeResolvesForReading(policy, Claimed(db, r).value, r, code, id);
      case _ =>
    }
  }

  /**
   Every automatic resolution in every run was earned: some reading of the alert's own
   site and asset arrived while it was open and lay below the threshold minus the margin.
   */
  lemma {:induction false} AutomaticResolutionIsEarned(policy: Policy, steps: seq<Step>, id: nat) returns (i: nat)
    requires ByEngine(After(policy, EMPTY, steps).alerts, id)
    ensures i < |steps| && steps[i].ReadingStep?
    ensures ResolvedBy(policy, After(policy, EMPTY, steps).alerts[id], steps[i].reading)
    ensures var before := After(policy, EMPTY, steps[..i]).alerts; id in before && before[id].status.Open?
  {
    var earlier := steps[..|steps| - 1];
    EmptyKeeps();
    RunKeeps(policy, EMPTY, earlier);
    if ByEngine(After(policy, EMPTY, earlier).alerts, id) {
      i := AutomaticResolutionIsEarned(policy, earlier, id);
      assert earlier[..i] == steps[..i];
      StepKeeps(policy, After(policy, EMPTY, earlier), steps[|steps| - 1]);
    } else {
      i := |steps| - 1;
      StepResolvesForReading(policy, After(policy, EMPTY, earlier), steps[i], id);
    }
  }

  /** However often a delivery is repeated, its reading is stored at most once, and exactly when its identity was claimed. */
  lemma {:induction false} ReadingsAppliedOnce(policy: Policy, steps: seq<Step>, source: string)
    ensures var db := After(policy, EMPTY, steps);
      db.readings[source] == if source in db.dedup then 1 else 0
  {
    EmptyKeeps();
    RunKeeps(policy, EMPTY, steps);
  }

  // ---- One event, two paths ----

  /** At most one alert and one opened message per event key, and one fallback row whose alert is fixed for good. */
  lemma {:induction false} OneAlertPerEvent(policy: Policy, steps: seq<Step>, later: seq<Step>, key: string, i: nat, j: nat)
    requires EdgeSource(Some(key))
    ensures var db, db' := After(policy, EMPTY, steps), After(policy, After(policy, EMPTY, steps), later);
      && (i in db.alerts && j in db.alerts && db.alerts[i].source == Some(key) && db.alerts[j].source == Some(key) ==>
            i == j && db.outbox[AlertOpened(i)] == 1)
      && (key in db.events ==> key in db'.events && db'.events[key].alertId == db.events[key].alertId && db.events[key].alertId in db.alerts)
  {
    EmptyKeeps();
    RunKeeps(policy, EMPTY, steps);
    RunKeeps(policy, After(policy, EMPTY, steps), later);
    var db := After(policy, EMPTY, steps);
    if i in db.alerts && j in db.alerts && db.alerts[i].source == Some(key) && db.alerts[j].source == Some(key) {
      assert SameEdgeSource(db.alerts[i], db.alerts[j]);
    }
  }

  lemma AcceptedSmsIsKnown(db: Db, e: SmsEvent, provider: string)
    requires ReceiveSms(db, e, provider).Ok?
    ensures var db' := ReceiveSms(db, e, provider).value;
      KeyOf(e) in db'.events && Matches(db'.events[KeyOf(e)], e.siteId, e.sequence, e.assetId, e.code)
  {
  }

  /**
   Once an SMS has been accepted, a later one under its key is refused exactly if it
   differs in site, sequence, asset or code or comes under the receipt of another event,
   whatever arrived in between; and a refused one leaves no trace.
   */
  lemma {:induction false} KnownSmsRefusedExactly(policy: Policy, steps: seq<Step>, e: SmsEvent, provider: string, later: seq<Step>, e': SmsEvent, provider': string)
    requires ReceiveSms(After(policy, EMPTY, steps), e, provider).Ok? && KeyOf(e') == KeyOf(e)
    ensures var db := After(policy, Apply(policy, After(policy, EMPTY, steps), SmsStep(e, provider)), later);
      && (ReceiveSms(db, e', provider').Err? <==>
            || e'.siteId != e.siteId || e'.sequence != e.sequence || e'.assetId != e.assetId || e'.code != e.code
            || (provider' in db.receipts && provider' != "" && db.receipts[provider'] != KeyOf(e)))
      && (ReceiveSms(db, e', provider').Err? ==> Apply(policy, db, SmsStep(e', provider')) == db)
  {
    EmptyKeeps();
    RunKeeps(policy, EMPTY, steps);
    var accepted := Apply(policy, After(policy, EMPTY, steps), SmsStep(e, provider));
    StepKeeps(policy, After(policy, EMPTY, steps), SmsStep(e, provider));
    AcceptedSmsIsKnown(After(policy, EMPTY, steps), e, provider);
    RunKeeps(policy, accepted, later);
    assert SameEvent(accepted.events[KeyOf(e)], After(policy, accepted, later).events[KeyOf(e)]);
    ConflictingSmsRefused(After(policy, accepted, later), e', provider');
  }

  /** The reading that replays an SMS event: same site, sequence, alarm and asset. */
  ghost predicate Replays(e: SmsEvent, r: Reading) {
    && r.siteId == e.siteId && r.source == Some(KeyOf(e)) && e.siteId != "" && 1 <= e.sequence < INT64_LIMIT
    && CriticalDecision(r, e.code).Some?
    && CriticalDecision(r, e.code).value.assetId == e.assetId
  }

  lemma ReplayedKey(e: SmsEvent, r: Reading)
    requires Replays(e, r)
    ensures SmsMessages.ParseEventKey(KeyOf(e)) == Ok((e.siteId, e.sequence))
    ensures EdgeSource(Some(KeyOf(e)))
  {
    SmsMessages.EventKeyRoundTrip(e.siteId, e.sequence);
    SmsMessages.EventKeyIsEdge(e.siteId, e.sequence);
  }

  /** The first SMS of an event links it to the alert found or opened for it. */
  lemma SmsLinks(db: Db, e: SmsEvent, provider: string)
    requires KeyOf(e) !in db.events && ReceiveSms(db, e, provider).Ok?
    ensures var db' := ReceiveSms(db, e, provider).value;
      && KeyOf(e) in db'.events
      && db'.events[KeyOf(e)] == FallbackRow(e.siteId, e.sequence, e.assetId, e.code, LinkTarget(db, SmsDecision(e)), false)
  {
  }

  /** Storing the reading does not change which alert an event belongs to. */
  lemma ClaimKeepsTarget(db: Db, r: Reading, d: Decision)
    requires Claimed(db, r).Ok?
    ensures LinkTarget(Claimed(db, r).value, d) == LinkTarget(db, d)
    ensures Claimed(db, r).value.events == db.events
  {
  }

  lemma SameTarget(db: Db, e: SmsEvent, r: Reading)
    requires Replays(e, r)
    ensures LinkTarget(db, CriticalDecision(r, e.code).value) == LinkTarget(db, SmsDecision(e))
  {
  }

  /** The first replay of an event links it to the very alert the SMS would have used. */
  lemma ReplayLinks(policy: Policy, db: Db, e: SmsEvent, r: Reading)
    requires Replays(e, r) && KeyOf(e) !in db.events && KeyOf(e) !in db.dedup
    requires Ingest(db, r, Decide(policy, r, Some(e.code))).Ok?
    ensures var db' := Ingest(db, r, Decide(policy, r, Some(e.code))).value;
      && KeyOf(e) in db'.events
      && db'.events[KeyOf(e)] == FallbackRow(e.siteId, e.sequence, e.assetId, e.code, LinkTarget(db, SmsDecision(e)), true)
  {
    ReplayedKey(e, r);
    var d := CriticalDecision(r, e.code).value;
    ClaimKeepsTarget(db, r, d);
    SameTarget(db, e, r);
  }

  /** The conditions on the event row that both paths share. */
  ghost predicate RowAdmissible(db: Db, e: SmsEvent) {
    && e.siteId in db.sites && 1 <= e.sequence < INT64_LIMIT
    && !exists k | k in db.events :: db.events[k].siteId == e.siteId && db.events[k].sequence == e.sequence
  }

  lemma AcceptedSmsIsAdmissible(db: Db, e: SmsEvent, provider: string)
    requires KeyOf(e) !in db.events && ReceiveSms(db, e, provider).Ok?
    ensures FindOrOpen(db, SmsDecision(e)).Ok? && RowAdmissible(db, e)
  {
  }

  lemma AdmissibleReplays(db: Db, e: SmsEvent, r: Reading, d: Decision)
    requires Replays(e, r) && d == CriticalDecision(r, e.code).value && KeyOf(e) !in db.events
    requires FindOrOpen(db, d).Ok? && RowAdmissible(db, e)
    ensures ReplayCritical(db, r, d, e.code).Ok?
  {
    ReplayedKey(e, r);
    assert FindOrOpen(db, d).value.events == db.events;
  }

  /** Whatever the SMS path would accept, the replay path accepts as well. */
  lemma AcceptedSmsReplays(policy: Policy, db: Db, e: SmsEvent, provider: string, r: Reading)
    requires Replays(e, r) && KeyOf(e) !in db.events && KeyOf(e) !in db.dedup && ReceiveSms(db, e, provider).Ok?
    ensures Ingest(db, r, Decide(policy, r, Some(e.code))).Ok?
  {
    AcceptedSmsIsAdmissible(db, e, provider);
    var d := CriticalDecision(r, e.code).value;
    ReplayIsInsertable(db, e, r);
    ClaimKeepsTarget(db, r, d);
    AdmissibleReplays(Claimed(db, r).value, e, r, d);
  }

  lemma ReplayIsInsertable(db: Db, e: SmsEvent, r: Reading)
    requires Replays(e, r) && Claimed(db, r).Ok? && FindOrOpen(db, SmsDecision(e)).Ok?
    ensures FindOrOpen(Claimed(db, r).value, CriticalDecision(r, e.code).value).Ok?
  {
    var d := CriticalDecision(r, e.code).value;
    ClaimKeepsTarget(db, r, d);
    SameTarget(db, e, r);
  }

  /**
   Either arrival order, with anything at all happening before the second arrival,
   links the event to the same alert.
   */
  lemma {:induction false} ArrivalOrderIrrelevant(policy: Policy, db: Db, e: SmsEvent, provider: string, r: Reading, between: seq<Step>, between': seq<Step>)
    requires Inv(db) && Replays(e, r) && KeyOf(e) !in db.events && KeyOf(e) !in db.dedup
    requires ReceiveSms(db, e, provider).Ok?
    ensures var sms, replay := SmsStep(e, provider), ReadingStep(r, Some(e.code));
      var smsFirst := Apply(policy, After(policy, Apply(policy, db, sms), between), replay);
      var replayFirst := Apply(policy, After(policy, Apply(policy, db, replay), between'), sms);
      && KeyOf(e) in smsFirst.events && KeyOf(e) in replayFirst.events
      && smsFirst.events[KeyOf(e)].alertId == replayFirst.events[KeyOf(e)].alertId == LinkTarget(db, SmsDecision(e))
  {
    var sms, replay := SmsStep(e, provider), ReadingStep(r, Some(e.code));
    SmsLinks(db, e, provider);
    AcceptedSmsReplays(policy, db, e, provider, r);
    ReplayLinks(policy, db, e, r);
    StepKeeps(policy, db, sms);
    StepKeeps(policy, db, replay);
    LinkSurvives(policy, Apply(policy, db, sms), KeyOf(e), between, replay);
    LinkSurvives(policy, Apply(policy, db, replay), KeyOf(e), between', sms);
  }

  lemma {:induction false} LinkSurvives(policy: Policy, db: Db, key: string, steps: seq<Step>, last: Step)
    requires Inv(db) && key in db.events
    ensures var db' := Apply(policy, After(policy, db, steps), last);
      key in db'.events && db'.events[key].alertId == db.events[key].alertId
  {
    RunKeeps(policy, db, steps);
    StepKeeps(policy, After(policy, db, steps), last);
    LinkKept(db, After(policy, db, steps), key);
    LinkKept(After(policy, db, steps), Apply(policy, After(policy, db, steps), last), key);
  }

  lemma LinkKept(db: Db, db': Db, key: string)
    requires Evolves(db, db') && key in db.events
    ensures key in db'.events && db'.events[key].alertId == db.events[key].alertId
  {
    assert SameEvent(db.events[key], db'.events[key]);
  }

  /** After the SMS, the replay is applied and stamps the row, unless its delivery had already been claimed. */
  lemma ReplayAfterSmsStamps(policy: Policy, db: Db, e: SmsEvent, r: Reading)
    requires Replays(e, r) && KeyOf(e) in db.events && KeyOf(e) !in db.dedup && r.siteId in db.sites
    requires Matches(db.events[KeyOf(e)], e.siteId, e.sequence, e.assetId, e.code)
    ensures var result := Ingest(db, r, Decide(policy, r, Some(e.code)));
      && result.Ok?
      && result.value.events == db.events[KeyOf(e) := db.events[KeyOf(e)].(replayed := true)]
      && result.value.alerts == db.alerts && result.value.outbox == db.outbox
  {
    ReplayedKey(e, r);
  }

  /** A replay whose row is stored under another asset or code is refused; its claim, reading and alert go with it. */
  lemma ConflictingReplayRefused(policy: Policy, db: Db, e: SmsEvent, r: Reading)
    requires Replays(e, r) && KeyOf(e) in db.events && KeyOf(e) !in db.dedup
    requires !Matches(db.events[KeyOf(e)], e.siteId, e.sequence, e.assetId, e.code)
    ensures Ingest(db, r, Decide(policy, r, Some(e.code))).Err?
    ensures Apply(policy, db, ReadingStep(r, Some(e.code))) == db
  {
    ReplayedKey(e, r);
    var d := CriticalDecision(r, e.code).value;
    if Claimed(db, r).Ok? {
      ClaimKeepsTarget(db, r, d);
    }
  }
}
