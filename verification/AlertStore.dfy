/** The transactions as they run: write by write over the tables, rolled back when a later write fails. */
module AlertStore {
  import opened Prelude
  import opened EdgeModel
  import opened Platform
  import opened PlatformLaws
  import SmsMessages

  class Database {
    var alerts: map<nat, Alert>
    var nextAlert: nat
    var events: map<string, FallbackRow>
    var receipts: map<string, string>
    var dedup: set<string>
    var readings: multiset<string>
    var outbox: multiset<Message>
    var history: multiset<HistoryRow>
    var assets: map<string, Asset>
    var sites: set<string>

    function View(): Db
      reads this
    {
      Db(alerts, nextAlert, events, receipts, dedup, readings, outbox, history, assets, sites)
    }

    constructor ()
      ensures View() == EMPTY
    {
      alerts, nextAlert, events, receipts, dedup := map[], 0, map[], map[], {};
      readings, outbox, history, assets, sites := multiset{}, multiset{}, multiset{}, map[], {};
    }

    method Rollback(saved: Db)
      modifies this
      ensures View() == saved
    {
      assert saved == Db(saved.alerts, saved.nextAlert, saved.events, saved.receipts, saved.dedup, saved.readings,
                         saved.outbox, saved.history, saved.assets, saved.sites);
      alerts, nextAlert := saved.alerts, saved.nextAlert;
      events, receipts, dedup := saved.events, saved.receipts, saved.dedup;
      readings, outbox, history := saved.readings, saved.outbox, saved.history;
      assets, sites := saved.assets, saved.sites;
    }

    // ---- Statements: each writes, or fails and writes nothing ----

    method CreateAlert(d: Decision) returns (r: Result<nat, Failure>)
      modifies this`alerts, this`nextAlert, this`outbox
      ensures r.Ok? <==> OpenAlert(old(View()), d).Ok?
      ensures r.Ok? ==> r.value == old(nextAlert)
      ensures View() == Commit(old(View()), OpenAlert(old(View()), d))
    {
      if !Insertable(View(), d) {
        return Err(Constraint);
      }
      var id := nextAlert;
      nextAlert := nextAlert + 1;
      alerts := alerts[id := Alert(d.assetId, d.siteId, d.kind, d.openedAt, d.source, Open)];
      outbox := outbox + multiset{AlertOpened(id)};
      return Ok(id);
    }

    /** The alert of the decision's own source, else the open one, else a new one. */
    method FindOrCreate(d: Decision) returns (r: Result<nat, Failure>)
      modifies this`alerts, this`nextAlert, this`outbox
      ensures r.Ok? <==> FindOrOpen(old(View()), d).Ok?
      ensures r.Ok? ==> r.value == LinkTarget(old(View()), d)
      ensures View() == Commit(old(View()), FindOrOpen(old(View()), d))
    {
      if d.source.Some? {
        var bySource := FindBySource(View(), d.source.value);
        if bySource.Some? {
          return Ok(bySource.value);
        }
      }
      var open := FindOpen(View(), d.siteId, d.assetId, d.kind);
      if open.Some? {
        return Ok(open.value);
      }
      r := CreateAlert(d);
    }

    method InsertFallbackEvent(key: string, row: FallbackRow) returns (ok: bool)
      modifies this`events
      ensures ok == InsertEvent(old(View()), key, row).Ok?
      ensures View() == Commit(old(View()), InsertEvent(old(View()), key, row))
    {
      ok := key !in events && row.siteId in sites && 1 <= row.sequence < 0x8000_0000_0000_0000
         && !exists k | k in events :: events[k].siteId == row.siteId && events[k].sequence == row.sequence;
      if ok {
        events := events[key := row];
      }
    }

    method InsertReceipt(key: string, provider: string) returns (ok: bool)
      modifies this`receipts
      ensures ok == RecordReceipt(old(View()), key, provider).Ok?
      ensures View() == Commit(old(View()), RecordReceipt(old(View()), key, provider))
    {
      if provider !in receipts {
        receipts := receipts[provider := key];
        return true;
      }
      return provider == "" || receipts[provider] == key;
    }

    // ---- Transactions ----

    /** An authenticated SMS: true when it opened an alert. */
    method ReceiveSMS(e: SmsEvent, provider: string) returns (r: Result<bool, Failure>)
      modifies this
      ensures View() == Commit(old(View()), ReceiveSms(old(View()), e, provider))
      ensures r.Ok? <==> ReceiveSms(old(View()), e, provider).Ok?
      ensures r.Ok? ==> r.value == (nextAlert != old(nextAlert))
    {
      var saved := View();
      var key := KeyOf(e);
      if key in events {
        if !Matches(events[key], e.siteId, e.sequence, e.assetId, e.code) {
          return Err(Conflict);
        }
        var known := InsertReceipt(key, provider);
        return if known then Ok(false) else Err(Conflict);
      }
      var refused := Inadmissible(View(), e);
      if refused.Some? {
        return Err(refused.value);
      }
      var alert := FindOrCreate(SmsDecision(e));
      if alert.Err? {
        return Err(alert.error);
      }
      var stored := InsertFallbackEvent(key, FallbackRow(e.siteId, e.sequence, e.assetId, e.code, alert.value, false));
      if !stored {
        Rollback(saved);
        return Err(Constraint);
      }
      var receipted := InsertReceipt(key, provider);
      if !receipted {
        Rollback(saved);
        return Err(Conflict);
      }
      return Ok(nextAlert != saved.nextAlert);
    }

    method Resolve(id: nat, at: int, note: Note, actor: Actor) returns (r: Result<Alert, Failure>)
      modifies this`alerts, this`history, this`outbox
      ensures View() == Commit(old(View()), ResolveAlert(old(View()), id, at, note, actor))
      ensures r.Ok? <==> ResolveAlert(old(View()), id, at, note, actor).Ok?
      ensures r.Ok? ==> id in alerts && r.value == alerts[id]
    {
      if id !in alerts {
        return Err(UnknownAlert);
      }
      if alerts[id].status.Resolved? {
        return Err(Conflict);
      }
      alerts := alerts[id := alerts[id].(status := Resolved(at, note, actor))];
      history := history + multiset{HistoryRow(id, at, note, actor)};
      outbox := outbox + multiset{AlertResolved(id)};
      return Ok(alerts[id]);
    }

    /** Insert the row, or stamp a stored one that agrees in every identity column. */
    method RecordCriticalReplay(key: string, row: FallbackRow) returns (ok: bool)
      modifies this`events
      ensures ok == RecordReplay(old(View()), key, row).Ok?
      ensures View() == Commit(old(View()), RecordReplay(old(View()), key, row))
    {
      if key !in events {
        ok := InsertFallbackEvent(key, row);
        return;
      }
      var stored := events[key];
      ok := Matches(stored, row.siteId, row.sequence, row.assetId, row.code) && stored.alertId == row.alertId;
      if ok {
        events := events[key := stored.(replayed := true)];
      }
    }

    /** On failure the caller rolls back, so only success fixes the state. */
    method Replay(reading: Reading, d: Decision, code: Code) returns (ok: bool)
      modifies this`alerts, this`nextAlert, this`outbox, this`events
      ensures ok == ReplayCritical(old(View()), reading, d, code).Ok?
      ensures ok ==> View() == ReplayCritical(old(View()), reading, d, code).value
    {
      if d.source.None? {
        return false;
      }
      var key := d.source.value;
      var parsed := SmsMessages.ParseEventKey(key);
      if parsed.Err? || parsed.value.0 != reading.siteId {
        return false;
      }
      var (siteId, sequence) := parsed.value;
      if key in events && Matches(events[key], siteId, sequence, d.assetId, code) {
        ok := RecordCriticalReplay(key, events[key]);
        return;
      }
      var alert := FindOrCreate(d);
      if alert.Err? {
        return false;
      }
      ok := RecordCriticalReplay(key, FallbackRow(siteId, sequence, d.assetId, code, alert.value, true));
    }

    method Carry(reading: Reading, outcome: PolicyOutcome) returns (ok: bool)
      modifies this`alerts, this`nextAlert, this`outbox, this`events, this`history
      ensures ok == ApplyOutcome(old(View()), reading, outcome).Ok?
      ensures ok ==> View() == ApplyOutcome(old(View()), reading, outcome).value
    {
      match outcome {
        case OpenOutcome(d) =>
          var alert := FindOrCreate(d);
          ok := alert.Ok?;
        case OpenCritical(d, code) =>
          ok := Replay(reading, d, code);
        case ResolveOutcome(kind, note) =>
          ok := true;
          var open := FindOpen(View(), reading.siteId, reading.assetId, kind);
          if open.Some? {
            var resolved := Resolve(open.value, reading.at, note, Engine);
            ok := resolved.Ok?;
          }
        case Unchanged =>
          ok := true;
      }
    }

    /** One delivery: claim its identity, store the reading, carry out the decision; all of it or none. */
    method IngestReading(policy: Policy, reading: Reading, code: Option<Code>) returns (ok: bool)
      modifies this
      ensures View() == Apply(policy, old(View()), ReadingStep(reading, code))
      ensures ok == Ingest(old(View()), reading, Decide(policy, reading, code)).Ok?
    {
      var saved := View();
      if reading.source.Some? {
        if reading.source.value in dedup {
          return true;
        }
        dedup := dedup + {reading.source.value};
      }
      if reading.siteId !in sites {
        Rollback(saved);
        return false;
      }
      assets := assets[reading.assetId := Asset(reading.siteId, reading.assetType)];
      if reading.source.Some? {
        readings := readings + multiset{reading.source.value};
      }
      ok := Carry(reading, Decide(policy, reading, code));
      if !ok {
        Rollback(saved);
      }
    }
  }
}
