/**
 The shared alert database: an SMS arriving at the API, the same event replayed to
 the engine, and resolutions, each one transaction that commits or changes nothing.
 */
module Platform {
  import opened Prelude
  import opened Text
  import opened EdgeModel
  import SmsMessages

  // ---- Tables ----

  datatype AssetType = SmartMeter | BatteryBms | SolarInverter

  datatype Kind = InternalTemperature | BatteryOverheating | InverterFailing | Tampering | SiteDown

  /** Who resolved an alert: the engine itself, or a user of the API. */
  datatype Actor = Engine | User(name: string)

  datatype Note = Written(text: string) | Recovered(temperature: real, threshold: real)

  datatype AlertStatus = Open | Resolved(at: int, note: Note, by_: Actor)

  datatype Alert = Alert(assetId: string, siteId: string, kind: Kind, openedAt: int, source: Option<string>, status: AlertStatus)

  datatype FallbackRow = FallbackRow(siteId: string, sequence: int, assetId: string, code: Code, alertId: nat, replayed: bool)

  datatype Asset = Asset(siteId: string, assetType: AssetType)

  datatype Message = AlertOpened(alertId: nat) | AlertResolved(alertId: nat)

  datatype HistoryRow = HistoryRow(alertId: nat, at: int, note: Note, by_: Actor)

  /** Alert ids are drawn fresh: nextAlert stands for the next unused one. */
  datatype Db = Db(
    alerts: map<nat, Alert>,
    nextAlert: nat,
    events: map<string, FallbackRow>,
    receipts: map<string, string>,
    dedup: set<string>,
    readings: multiset<string>,
    outbox: multiset<Message>,
    history: multiset<HistoryRow>,
    assets: map<string, Asset>,
    sites: set<string>)

  const EMPTY := Db(map[], 0, map[], map[], {}, multiset{}, multiset{}, multiset{}, map[], {})

  datatype Failure = Conflict | InvalidId | UnknownAlert | Malformed | Constraint

  predicate EdgeSource(source: Option<string>) {
    source.Some? && |source.value| >= 5 && source.value[..5] == "edge:"
  }

  // ---- Queries ----

  /** The newest alert with a property; under the invariant there is at most one in every use below. */
  function Find(alerts: map<nat, Alert>, n: nat, f: Alert -> bool): (found: Option<nat>)
    ensures found.Some? ==> found.value < n && found.value in alerts && f(alerts[found.value])
    ensures found.None? ==> forall id | 0 <= id < n && id in alerts :: !f(alerts[id])
  {
    if n == 0 then None
    else if n - 1 in alerts && f(alerts[n - 1]) then Some(n - 1)
    else Find(alerts, n - 1, f)
  }

  function FindBySource(db: Db, key: string): Option<nat> {
    Find(db.alerts, db.nextAlert, (a: Alert) => a.source == Some(key))
  }

  predicate IsOpen(a: Alert, siteId: string, assetId: string, kind: Kind) {
    a.siteId == siteId && a.assetId == assetId && a.kind == kind && a.status.Open?
  }

  function FindOpen(db: Db, siteId: string, assetId: string, kind: Kind): Option<nat> {
    Find(db.alerts, db.nextAlert, (a: Alert) => IsOpen(a, siteId, assetId, kind))
  }

  // ---- Opening an alert ----

  datatype Decision = Decision(assetId: string, siteId: string, kind: Kind, openedAt: int, source: Option<string>)

  /** What the table's constraints demand of a new alert. */
  predicate Insertable(db: Db, d: Decision) {
    && d.siteId in db.sites
    && (d.kind.SiteDown? <==> d.assetId == "site")
    && (d.assetId == "site" || d.assetId in db.assets)
    && FindOpen(db, d.siteId, d.assetId, d.kind).None?
    && (EdgeSource(d.source) ==> FindBySource(db, d.source.value).None?)
  }

  function OpenAlert(db: Db, d: Decision): Result<Db, Failure> {
    if !Insertable(db, d) then Err(Constraint)
    else Ok(db.(alerts := db.alerts[db.nextAlert := Alert(d.assetId, d.siteId, d.kind, d.openedAt, d.source, Open)],
                nextAlert := db.nextAlert + 1,
                outbox := db.outbox + multiset{AlertOpened(db.nextAlert)}))
  }

  /** The alert an event belongs to: its own, else the open one of its asset and kind, else a new one. */
  function LinkTarget(db: Db, d: Decision): nat {
    if d.source.Some? && FindBySource(db, d.source.value).Some? then FindBySource(db, d.source.value).value
    else if FindOpen(db, d.siteId, d.assetId, d.kind).Some? then FindOpen(db, d.siteId, d.assetId, d.kind).value
    else db.nextAlert
  }

  /** Finds the alert of a decision or opens it. */
  function FindOrOpen(db: Db, d: Decision): Result<Db, Failure> {
    if LinkTarget(db, d) == db.nextAlert then OpenAlert(db, d) else Ok(db)
  }

  // ---- SMS arrival ----

  datatype SmsEvent = SmsEvent(siteId: string, assetId: string, sequence: Uint64, code: Code, temperature: Option<real>, at: int)

  function KeyOf(e: SmsEvent): string {
    SmsMessages.EventKey(e.siteId, e.sequence)
  }

  predicate MatchesAsset(code: Code, t: AssetType) {
    match code
    case BatteryOverheat => t.BatteryBms?
    case InverterFailure => t.SolarInverter?
    case TamperDetected => true
    case SiteOutage => false
  }

  function KindOf(code: Code): Kind {
    match code
    case BatteryOverheat => BatteryOverheating
    case InverterFailure => InverterFailing
    case TamperDetected => Tampering
    case SiteOutage => SiteDown
  }

  predicate Matches(row: FallbackRow, siteId: string, sequence: int, assetId: string, code: Code) {
    row.siteId == siteId && row.sequence == sequence && row.assetId == assetId && row.code == code
  }

  /** A redelivered message is fine for its own event and a conflict for any other; an empty id identifies nothing. */
  function RecordReceipt(db: Db, key: string, provider: string): Result<Db, Failure> {
    if provider !in db.receipts then Ok(db.(receipts := db.receipts[provider := key]))
    else if provider == "" || db.receipts[provider] == key then Ok(db)
    else Err(Conflict)
  }

  /** Inserting the fallback row under its key, its unique site and sequence, and the column checks. */
  function InsertEvent(db: Db, key: string, row: FallbackRow): Result<Db, Failure> {
    if key in db.events || row.siteId !in db.sites || !(1 <= row.sequence < INT64_LIMIT)
       || (exists k | k in db.events :: db.events[k].siteId == row.siteId && db.events[k].sequence == row.sequence)
    then Err(Constraint)
    else Ok(db.(events := db.events[key := row]))
  }

  /** What an event must be before anything is written for it. */
  function Inadmissible(db: Db, e: SmsEvent): Option<Failure> {
    if e.assetId != "site" && (e.assetId !in db.assets || db.assets[e.assetId].siteId != e.siteId
                               || !MatchesAsset(e.code, db.assets[e.assetId].assetType))
    then Some(InvalidId)
    else if e.code == BatteryOverheat && e.temperature.None? then Some(InvalidId)
    else None
  }

  function SmsDecision(e: SmsEvent): Decision {
    Decision(e.assetId, e.siteId, KindOf(e.code), e.at, Some(KeyOf(e)))
  }

  function ReceiveSms(db: Db, e: SmsEvent, provider: string): Result<Db, Failure> {
    var key := KeyOf(e);
    if key in db.events then
      if Matches(db.events[key], e.siteId, e.sequence, e.assetId, e.code) then RecordReceipt(db, key, provider) else Err(Conflict)
    else if Inadmissible(db, e).Some? then Err(Inadmissible(db, e).value)
    else
      var target := LinkTarget(db, SmsDecision(e));
      match FindOrOpen(db, SmsDecision(e))
      case Err(f) => Err(f)
      case Ok(ready) =>
        match InsertEvent(ready, key, FallbackRow(e.siteId, e.sequence, e.assetId, e.code, target, false))
        case Err(f) => Err(f)
        case Ok(linked) => RecordReceipt(linked, key, provider)
  }

  // ---- Readings ----

  datatype Reading = Reading(assetId: string, siteId: string, assetType: AssetType, temperature: Option<real>, at: int, source: Option<string>)

  datatype Policy = Policy(smartMeter: real, battery: real, inverter: real, margin: real)

  datatype PolicyOutcome =
    | OpenOutcome(decision: Decision)
    | OpenCritical(decision: Decision, code: Code)
    | ResolveOutcome(kind: Kind, note: Note)
    | Unchanged

  function Threshold(policy: Policy, t: AssetType): real {
    match t
    case SmartMeter => policy.smartMeter
    case BatteryBms => policy.battery
    case SolarInverter => policy.inverter
  }

  function ThresholdKind(t: AssetType): Kind {
    if t.BatteryBms? then BatteryOverheating else InternalTemperature
  }

  function CriticalDecision(r: Reading, code: Code): Option<Decision> {
    var assetId := if code == SiteOutage then "site" else r.assetId;
    var decision := Decision(assetId, r.siteId, KindOf(code), r.at, r.source);
    if code == BatteryOverheat && (!r.assetType.BatteryBms? || r.temperature.None?) then None
    else if code == InverterFailure && !r.assetType.SolarInverter? then None
    else Some(decision)
  }

  function Evaluate(policy: Policy, r: Reading): Option<Decision> {
    if r.temperature.None? || r.temperature.value < Threshold(policy, r.assetType) then None
    else Some(Decision(r.assetId, r.siteId, ThresholdKind(r.assetType), r.at, r.source))
  }

  function RecoveryNote(policy: Policy, r: Reading): Option<Note> {
    var threshold := Threshold(policy, r.assetType) - policy.margin;
    if r.temperature.None? || r.temperature.value >= threshold then None
    else Some(Recovered(r.temperature.value, threshold))
  }

  function Decide(policy: Policy, r: Reading, code: Option<Code>): PolicyOutcome {
    var critical := if code.Some? then CriticalDecision(r, code.value) else None;
    if critical.Some? then OpenCritical(critical.value, code.value)
    else if Evaluate(policy, r).Some? then OpenOutcome(Evaluate(policy, r).value)
    else if RecoveryNote(policy, r).Some? then ResolveOutcome(ThresholdKind(r.assetType), RecoveryNote(policy, r).value)
    else Unchanged
  }

  // ---- Resolution ----

  function ResolveAlert(db: Db, id: nat, at: int, note: Note, actor: Actor): Result<Db, Failure> {
    if id !in db.alerts then Err(UnknownAlert)
    else if !db.alerts[id].status.Open? then Err(Conflict)
    else Ok(db.(alerts := db.alerts[id := db.alerts[id].(status := Resolved(at, note, actor))],
                history := db.history + multiset{HistoryRow(id, at, note, actor)},
                outbox := db.outbox + multiset{AlertResolved(id)}))
  }

  // ---- The engine's ingest transaction ----

  function UpsertAsset(db: Db, r: Reading): Result<Db, Failure> {
    if r.siteId !in db.sites then Err(Constraint)
    else Ok(db.(assets := db.assets[r.assetId := Asset(r.siteId, r.assetType)],
                readings := if r.source.Some? then db.readings + multiset{r.source.value} else db.readings))
  }

  /** Insert or stamp the fallback row; a stored row that differs in any identity column is a conflict. */
  function RecordReplay(db: Db, key: string, row: FallbackRow): Result<Db, Failure> {
    if key !in db.events then InsertEvent(db, key, row)
    else if Matches(db.events[key], row.siteId, row.sequence, row.assetId, row.code) && db.events[key].alertId == row.alertId
    then Ok(db.(events := db.events[key := db.events[key].(replayed := true)]))
    else Err(Conflict)
  }

  function ReplayCritical(db: Db, r: Reading, d: Decision, code: Code): Result<Db, Failure> {
    if d.source.None? || SmsMessages.ParseEventKey(d.source.value).Err? then Err(Malformed)
    else
      var key := d.source.value;
      var (siteId, sequence) := SmsMessages.ParseEventKey(key).value;
      if siteId != r.siteId then Err(Malformed)
      else if key in db.events && Matches(db.events[key], siteId, sequence, d.assetId, code) then
        RecordReplay(db, key, db.events[key])
      else
        var target := LinkTarget(db, d);
        match FindOrOpen(db, d)
        case Err(f) => Err(f)
        case Ok(ready) => RecordReplay(ready, key, FallbackRow(siteId, sequence, d.assetId, code, target, true))
  }

  function ApplyOutcome(db: Db, r: Reading, outcome: PolicyOutcome): Result<Db, Failure> {
    match outcome
    case OpenOutcome(d) => FindOrOpen(db, d)
    case OpenCritical(d, code) => ReplayCritical(db, r, d, code)
    case ResolveOutcome(kind, note) =>
      var open := FindOpen(db, r.siteId, r.assetId, kind);
      if open.None? then Ok(db) else ResolveAlert(db, open.value, r.at, note, Engine)
    case Unchanged => Ok(db)
  }

  /** A delivery already claimed does nothing; anything that fails later releases the claim with everything else. */
  function Ingest(db: Db, r: Reading, outcome: PolicyOutcome): Result<Db, Failure> {
    if r.source.Some? && r.source.value in db.dedup then Ok(db)
    else
      var claimed := if r.source.Some? then db.(dedup := db.dedup + {r.source.value}) else db;
      match UpsertAsset(claimed, r)
      case Err(f) => Err(f)
      case Ok(stored) => ApplyOutcome(stored, r, outcome)
  }
}
