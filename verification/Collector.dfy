/** The collector over its store: one reading examined, persisted and cleared, as the debounce machine would. */
module Collector {
  import opened Prelude
  import opened Text
  import opened EdgeModel
  import opened EdgeStore
  import opened EdgeTransactions
  import opened Debounce
  import opened DebounceRuns
  import SmsMessages

  // ---- One reading ----

  /** Which of the store writes of one reading succeed, and the disk each insert meets. */
  datatype Writes = Writes(
    saved: nat -> bool,
    disks: nat -> Disk,
    incidents: nat -> bool,
    released: nat -> bool,
    deleted: nat -> bool,
    resolved: nat -> bool)

  function ExamineAll(w: Watch, writes: Writes, n: nat): Watch
    requires w.memory.Some? && w.work.Handling? && n <= |w.work.checks|
    ensures var w' := ExamineAll(w, writes, n);
      && w'.memory.Some? && w'.work == w.work.(checks := w.work.checks[n..], due := w'.work.due)
  {
    if n == 0 then w else Examine(ExamineAll(w, writes, n - 1), writes.saved(n - 1))
  }

  /** Whether the incident of a recorded alarm can be sent as an SMS. */
  predicate Formats(siteId: string, r: Reading, c: Check, s: nat) {
    && s < UINT64_LIMIT && -INT64_LIMIT <= r.takenAt < INT64_LIMIT
    && SmsMessages.Format(SmsMessages.FallbackEvent(siteId, AssetOf(r.deviceId, c.code), s, c.code, c.value, Some(r.takenAt))).Ok?
  }

  predicate IncidentStored(siteId: string, work: Work, writes: Writes, i: nat)
    requires work.Handling? && work.alarm.Recorded?
  {
    Formats(siteId, work.reading, work.alarm.check, work.alarm.sequence) && writes.incidents(i)
  }

  /** Queue the record of the first due alarm, open its incident, hand it to the uploader, remember it. */
  function RaiseOne(cfg: WatchConfig, siteId: string, w: Watch, writes: Writes, i: nat): Watch
    requires Raising(w)
    ensures var w' := RaiseOne(cfg, siteId, w, writes, i);
      && w'.memory.Some? && w'.work == w.work.(due := w.work.due[1..])
  {
    var raised := Raise(cfg, w, writes.disks(i));
    if raised.work.alarm.NoAlarm? then raised
    else
      var incident := Open(raised, IncidentStored(siteId, raised.work, writes, i));
      if incident.work.alarm.NoAlarm? then incident else Mark(incident, writes.released(i))
  }

  function RaiseAll(cfg: WatchConfig, siteId: string, w: Watch, writes: Writes, n: nat): Watch
    requires w.memory.Some? && w.work.Handling? && w.work.checks == [] && w.work.alarm.NoAlarm? && n <= |w.work.due|
    ensures var w' := RaiseAll(cfg, siteId, w, writes, n);
      && w'.memory.Some? && w'.work == w.work.(due := w.work.due[n..])
  {
    if n == 0 then w else RaiseOne(cfg, siteId, RaiseAll(cfg, siteId, w, writes, n - 1), writes, n - 1)
  }

  function ClearAll(w: Watch, writes: Writes, n: nat): Watch
    requires w.memory.Some? && w.work.Handling? && n <= |w.work.clears|
    ensures var w' := ClearAll(w, writes, n); w'.memory.Some? && w'.work == w.work.(clears := w.work.clears[n..])
  {
    if n == 0 then w else Clear(ClearAll(w, writes, n - 1), writes.deleted(n - 1), writes.resolved(n - 1))
  }

  /** A reading without a due alarm is queued as ordinary telemetry. */
  function PersistPlain(cfg: WatchConfig, db: EdgeDb, event: Event, now: int, disk: Disk, released: bool): EdgeDb {
    var (db', r) := Insert(cfg.queue, db, event, Persisted, now, disk);
    if r.Err? then db else if !released then db' else MarkPendingUpload(db', r.value).0
  }

  function Persist(cfg: WatchConfig, siteId: string, w: Watch, writes: Writes): (w': Watch)
    requires w.memory.Some? && w.work.Handling? && w.work.checks == [] && w.work.alarm.NoAlarm?
    ensures w'.memory.Some? && w'.work == w.work.(due := [])
  {
    if w.work.due == [] then w.(db := PersistPlain(cfg, w.db, w.work.event, w.work.now, writes.disks(0), writes.released(0)))
    else RaiseAll(cfg, siteId, w, writes, |w.work.due|)
  }

  /** The reading taken and each of its active codes examined. */
  function Examined(cfg: WatchConfig, w: Watch, r: Reading, event: Event, now: int, writes: Writes): (w': Watch)
    requires w.memory.Some?
    ensures w'.memory.Some? && w'.work.Handling? && w'.work.checks == [] && w'.work.alarm.NoAlarm?
    ensures w'.work.clears == ClearedCodes(cfg, r)
  {
    ExamineAll(Take(cfg, w, r, event, now), writes, |ActiveChecks(cfg, r)|)
  }

  function Handle(cfg: WatchConfig, siteId: string, w: Watch, r: Reading, event: Event, now: int, writes: Writes): Watch
    requires w.memory.Some?
  {
    ClearAll(Persist(cfg, siteId, Examined(cfg, w, r, event, now, writes), writes), writes, |ClearedCodes(cfg, r)|).(work := Resting)
  }

  /** A reading with its normalized event, the clock and its writes; or one that could not be read or normalized. */
  datatype Sample = Unusable | Sample(reading: Reading, event: Event, now: int, writes: Writes)

  function HandleAll(cfg: WatchConfig, siteId: string, w: Watch, batch: seq<Sample>): (w': Watch)
    requires w.memory.Some?
    ensures w'.memory.Some?
  {
    if batch == [] then w
    else
      var before, last := HandleAll(cfg, siteId, w, batch[..|batch| - 1]), batch[|batch| - 1];
      if last.Unusable? then before else Handle(cfg, siteId, before, last.reading, last.event, last.now, last.writes)
  }

  function Loaded(w: Watch, restored: bool): Watch {
    if restored then w else w.(memory := Some(Restored(w.db)))
  }

  // ---- Handling a reading is a run of the machine ----

  lemma {:induction false} ExaminingIsRun(cfg: WatchConfig, steps: seq<WatchStep>, writes: Writes, n: nat) returns (longer: seq<WatchStep>)
    requires var w := Run(cfg, steps); w.memory.Some? && w.work.Handling? && n <= |w.work.checks|
    ensures Run(cfg, longer) == ExamineAll(Run(cfg, steps), writes, n)
  {
    if n == 0 {
      longer := steps;
    } else {
      var before := ExaminingIsRun(cfg, steps, writes, n - 1);
      RunExtends(cfg, before, CheckStep(writes.saved(n - 1)));
      longer := before + [CheckStep(writes.saved(n - 1))];
    }
  }

  /** The alarm's incident is opened and remembered, in machine steps. */
  lemma OpeningIsRun(cfg: WatchConfig, steps: seq<WatchStep>, stored: bool, released: bool) returns (longer: seq<WatchStep>)
    requires var w := Run(cfg, steps); w.memory.Some? && w.work.Handling? && w.work.alarm.Recorded?
    ensures var incident := Open(Run(cfg, steps), stored);
      Run(cfg, longer) == if incident.work.alarm.NoAlarm? then incident else Mark(incident, released)
  {
    longer := steps + [OpenStep(stored)];
    RunExtends(cfg, steps, OpenStep(stored));
    if Run(cfg, longer).work.alarm.Opened? {
      RunExtends(cfg, longer, MarkStep(released));
      longer := longer + [MarkStep(released)];
    }
  }

  lemma RaisingIsRun(cfg: WatchConfig, siteId: string, steps: seq<WatchStep>, writes: Writes, i: nat) returns (longer: seq<WatchStep>)
    requires Raising(Run(cfg, steps))
    ensures Run(cfg, longer) == RaiseOne(cfg, siteId, Run(cfg, steps), writes, i)
  {
    longer := steps + [RaiseStep(writes.disks(i))];
    RunExtends(cfg, steps, RaiseStep(writes.disks(i)));
    var raised := Run(cfg, longer);
    if raised.work.alarm.Recorded? {
      longer := OpeningIsRun(cfg, longer, IncidentStored(siteId, raised.work, writes, i), writes.released(i));
    }
  }

  lemma {:induction false} RaisingAllIsRun(cfg: WatchConfig, siteId: string, steps: seq<WatchStep>, writes: Writes, n: nat)
    returns (longer: seq<WatchStep>)
    requires var w := Run(cfg, steps);
      w.memory.Some? && w.work.Handling? && w.work.checks == [] && w.work.alarm.NoAlarm? && n <= |w.work.due|
    ensures Run(cfg, longer) == RaiseAll(cfg, siteId, Run(cfg, steps), writes, n)
  {
    if n == 0 {
      longer := steps;
    } else {
      var before := RaisingAllIsRun(cfg, siteId, steps, writes, n - 1);
      longer := RaisingIsRun(cfg, siteId, before, writes, n - 1);
    }
  }

  lemma {:induction false} ClearingIsRun(cfg: WatchConfig, steps: seq<WatchStep>, writes: Writes, n: nat) returns (longer: seq<WatchStep>)
    requires var w := Run(cfg, steps);
      && w.memory.Some? && w.work.Handling? && w.work.checks == [] && w.work.due == [] && w.work.alarm.NoAlarm?
      && n <= |w.work.clears|
    ensures Run(cfg, longer) == ClearAll(Run(cfg, steps), writes, n)
  {
    if n == 0 {
      longer := steps;
    } else {
      var before := ClearingIsRun(cfg, steps, writes, n - 1);
      var step := ClearStep(writes.deleted(n - 1), writes.resolved(n - 1));
      RunExtends(cfg, before, step);
      longer := before + [step];
    }
  }

  lemma PlainIsFrame(cfg: WatchConfig, db: EdgeDb, event: Event, now: int, disk: Disk, released: bool)
    ensures WatchFrame(db, PersistPlain(cfg, db, event, now, disk, released))
  {
    var (db', r) := Insert(cfg.queue, db, event, Persisted, now, disk);
    OtherTransactionsAreFrames(cfg.queue, db, InsertTx(event, Persisted, now, disk));
    if r.Ok? && released {
      OtherTransactionsAreFrames(cfg.queue, db', PendingTx(r.value));
    }
  }

  lemma PersistingIsRun(cfg: WatchConfig, siteId: string, steps: seq<WatchStep>, writes: Writes) returns (longer: seq<WatchStep>)
    requires var w := Run(cfg, steps); w.memory.Some? && w.work.Handling? && w.work.checks == [] && w.work.alarm.NoAlarm?
    ensures Run(cfg, longer) == Persist(cfg, siteId, Run(cfg, steps), writes)
  {
    var w := Run(cfg, steps);
    if w.work.due == [] {
      var to := PersistPlain(cfg, w.db, w.work.event, w.work.now, writes.disks(0), writes.released(0));
      PlainIsFrame(cfg, w.db, w.work.event, w.work.now, writes.disks(0), writes.released(0));
      RunExtends(cfg, steps, StoreStep(to));
      longer := steps + [StoreStep(to)];
    } else {
      longer := RaisingAllIsRun(cfg, siteId, steps, writes, |w.work.due|);
    }
  }

  lemma FinishingIsRun(cfg: WatchConfig, steps: seq<WatchStep>)
    requires Finished(Run(cfg, steps))
    ensures Run(cfg, steps + [RestStep]) == Run(cfg, steps).(work := Resting)
  {
    RunExtends(cfg, steps, RestStep);
  }

  lemma TakingIsRun(cfg: WatchConfig, steps: seq<WatchStep>, r: Reading, event: Event, now: int)
    requires Run(cfg, steps).memory.Some? && Run(cfg, steps).work.Resting?
    ensures Run(cfg, steps + [ReadStep(r, event, now)]) == Take(cfg, Run(cfg, steps), r, event, now)
  {
    RunExtends(cfg, steps, ReadStep(r, event, now));
  }

  lemma ClosingIsRun(cfg: WatchConfig, steps: seq<WatchStep>, writes: Writes) returns (longer: seq<WatchStep>)
    requires var w := Run(cfg, steps);
      w.memory.Some? && w.work.Handling? && w.work.checks == [] && w.work.due == [] && w.work.alarm.NoAlarm?
    ensures var w := Run(cfg, steps);
      Run(cfg, longer) == ClearAll(w, writes, |w.work.clears|).(work := Resting)
  {
    var cleared := ClearingIsRun(cfg, steps, writes, |Run(cfg, steps).work.clears|);
    FinishingIsRun(cfg, cleared);
    longer := cleared + [RestStep];
  }

  lemma ExaminedIsRun(cfg: WatchConfig, steps: seq<WatchStep>, r: Reading, event: Event, now: int, writes: Writes)
    returns (longer: seq<WatchStep>)
    requires Run(cfg, steps).memory.Some? && Run(cfg, steps).work.Resting?
    ensures Run(cfg, longer) == Examined(cfg, Run(cfg, steps), r, event, now, writes)
  {
    TakingIsRun(cfg, steps, r, event, now);
    longer := ExaminingIsRun(cfg, steps + [ReadStep(r, event, now)], writes, |ActiveChecks(cfg, r)|);
  }

  /** Everything proved of the machine's runs holds of the class below. */
  lemma {:induction false} HandlingIsRun(cfg: WatchConfig, siteId: string, steps: seq<WatchStep>, r: Reading, event: Event, now: int, writes: Writes)
    returns (longer: seq<WatchStep>)
    requires Run(cfg, steps).memory.Some? && Run(cfg, steps).work.Resting?
    ensures Run(cfg, longer) == Handle(cfg, siteId, Run(cfg, steps), r, event, now, writes)
  {
    var examined := ExaminedIsRun(cfg, steps, r, event, now, writes);
    var persisted := PersistingIsRun(cfg, siteId, examined, writes);
    longer := ClosingIsRun(cfg, persisted, writes);
  }

  /** So is a whole pass: reading back what the last process knew, then every usable reading in turn. */
  lemma {:induction false} PassIsRun(cfg: WatchConfig, siteId: string, steps: seq<WatchStep>, restored: bool, batch: seq<Sample>)
    returns (longer: seq<WatchStep>)
    requires Run(cfg, steps).work.Resting? && (restored ==> Run(cfg, steps).memory.Some?)
    ensures Run(cfg, longer) == HandleAll(cfg, siteId, Loaded(Run(cfg, steps), restored), batch) && Run(cfg, longer).work.Resting?
  {
    if batch == [] {
      longer := if restored then steps else steps + [RestoreStep];
      RunExtends(cfg, steps, RestoreStep);
    } else {
      var last := batch[|batch| - 1];
      longer := PassIsRun(cfg, siteId, steps, restored, batch[..|batch| - 1]);
      if last.Sample? {
        longer := HandlingIsRun(cfg, siteId, longer, last.reading, last.event, last.now, last.writes);
      }
    }
  }

  // ---- The collector ----

  class Collector {
    const cfg: WatchConfig
    const siteId: string
    const store: Store
    var conditions: Memory
    var restored: bool
    ghost var log: seq<Note>

    constructor (cfg: WatchConfig, siteId: string, store: Store)
      ensures this.cfg == cfg && this.siteId == siteId && this.store == store
      ensures !restored && conditions == map[] && log == []
    {
      this.cfg, this.siteId, this.store := cfg, siteId, store;
      conditions, restored, log := map[], false, [];
    }

    /** The collector and its store, with the reading in hand. */
    ghost function View(work: Work): Watch
      reads this, store
    {
      Watch(store.Db(), Some(conditions), work, log)
    }

    method RestoreDebounceState()
      modifies this`conditions, this`restored
      ensures restored && conditions == Restored(store.Db())
    {
      conditions := map key | key in store.debounce ::
        Condition(store.debounce[key], exists s | s in store.incidents :: Unresolved(store.incidents, s, key.0, key.1));
      restored := true;
    }

    /** One examined alarm: tracked if its start could be saved, due when its condition has lasted long enough. */
    method OpenOnce(work: Work, saved: bool) returns (next: Work)
      requires work.Handling? && work.checks != []
      modifies this`conditions, this`log, store`debounce
      ensures View(next) == Examine(old(View(work)), saved)
    {
      var check := work.checks[0];
      var key := KeyOf(work.reading, check.code);
      var state := Condition(work.now, false);
      next := work.(checks := work.checks[1..]);
      if key in conditions {
        state := conditions[key];
      } else {
        if !saved {
          return;
        }
        store.SaveDebounceCondition(key, work.now);
        log := log + [Started(key, work.now)];
      }
      conditions := conditions[key := state];
      if !state.alarmed && work.now - state.activeSince >= check.debounce {
        next := next.(due := next.due + [check]);
      }
    }

    method CriticalEvents(work: Work, writes: Writes) returns (next: Work)
      requires work.Handling?
      modifies this`conditions, this`log, store`debounce
      ensures View(next) == ExamineAll(old(View(work)), writes, |work.checks|)
    {
      next := work;
      for i := 0 to |work.checks|
        invariant View(next) == ExamineAll(old(View(work)), writes, i)
      {
        next := OpenOnce(next, writes.saved(i));
      }
    }

    /**
     The first due alarm: recorded, its incident opened, the record released for upload, the alarm remembered; a
     failed write stops it there.
     */
    method PersistAlarm(work: Work, writes: Writes, i: nat) returns (next: Work)
      requires Raising(View(work)) && store.cfg == cfg.queue
      modifies this`conditions, this`log, store`rows, store`lastSequence, store`incidents
      ensures View(next) == RaiseOne(cfg, siteId, old(View(work)), writes, i)
    {
      next := RecordAlarm(work, writes.disks(i));
      if next.alarm.Recorded? {
        next := OpenAlarm(next, writes, i);
      }
    }

    method RecordAlarm(work: Work, disk: Disk) returns (next: Work)
      requires Raising(View(work)) && store.cfg == cfg.queue
      modifies this`log, store`rows, store`lastSequence
      ensures View(next) == Raise(cfg, old(View(work)), disk)
    {
      var check := work.due[0];
      next := work.(due := work.due[1..]);
      var inserted := store.Add(CriticalEvent(work.event, check), Persisted, work.now, disk);
      if inserted.Ok? {
        log := log + [Raised(KeyOf(work.reading, check.code), work.now, check.debounce)];
        next := next.(alarm := Recorded(check, inserted.value));
      }
    }

    method OpenAlarm(work: Work, writes: Writes, i: nat) returns (next: Work)
      requires work.Handling? && work.alarm.Recorded?
      modifies this`conditions, store`rows, store`incidents
      ensures var opening := Open(old(View(work)), IncidentStored(siteId, work, writes, i));
        View(next) == if opening.work.alarm.NoAlarm? then opening else Mark(opening, writes.released(i))
    {
      var Recorded(check, s) := work.alarm;
      var key := KeyOf(work.reading, check.code);
      next := work.(alarm := NoAlarm);
      if !Formats(siteId, work.reading, check, s) || !writes.incidents(i) {
        return;
      }
      var event := SmsMessages.FallbackEvent(siteId, key.0, s, check.code, check.value, Some(work.reading.takenAt));
      var opening := store.OpenFallbackIncident(event, work.now);
      if !writes.released(i) {
        return;
      }
      var outcome := store.MarkPending(s);
      if outcome == Done && key in conditions {
        conditions := conditions[key := conditions[key].(alarmed := true)];
      }
    }

    /** An inactive reading: the durable row goes first, then memory, then the incident; a failed delete stops it. */
    method Resolve(work: Work, deleted: bool, resolved: bool) returns (next: Work)
      requires work.Handling? && work.clears != []
      modifies this`conditions, this`log, store`debounce, store`incidents
      ensures View(next) == Clear(old(View(work)), deleted, resolved)
    {
      var key := KeyOf(work.reading, work.clears[0]);
      next := work.(clears := work.clears[1..]);
      if key in conditions {
        if !deleted {
          log := log + [ClearLost(key, work.now)];
          return;
        }
        store.DeleteDebounceCondition(key);
      }
      conditions := conditions - {key};
      log := log + [Cleared(key, work.now)];
      if resolved {
        store.ResolveFallbackIncident(key.0, key.1, work.now);
      }
    }

    method ResolveRecovered(work: Work, writes: Writes) returns (next: Work)
      requires work.Handling?
      modifies this`conditions, this`log, store`debounce, store`incidents
      ensures View(next) == ClearAll(old(View(work)), writes, |work.clears|)
    {
      next := work;
      for i := 0 to |work.clears|
        invariant View(next) == ClearAll(old(View(work)), writes, i)
      {
        next := Resolve(next, writes.deleted(i), writes.resolved(i));
      }
    }

    method PersistPlainRecord(event: Event, now: int, disk: Disk, released: bool)
      requires store.cfg == cfg.queue
      modifies store`rows, store`lastSequence
      ensures store.Db() == PersistPlain(cfg, old(store.Db()), event, now, disk, released)
    {
      var inserted := store.Add(event, Persisted, now, disk);
      if inserted.Ok? && released {
        var outcome := store.MarkPending(inserted.value);
      }
    }

    method PersistAlarms(work: Work, writes: Writes) returns (next: Work)
      requires work.Handling? && work.checks == [] && work.alarm.NoAlarm? && store.cfg == cfg.queue
      modifies this`conditions, this`log, store`rows, store`lastSequence, store`incidents
      ensures View(next) == RaiseAll(cfg, siteId, old(View(work)), writes, |work.due|)
    {
      next := work;
      for i := 0 to |work.due|
        invariant View(next) == RaiseAll(cfg, siteId, old(View(work)), writes, i)
      {
        next := PersistAlarm(next, writes, i);
      }
    }

    /** The body of the collection loop for one normalized reading. */
    method CollectReading(reading: Reading, event: Event, now: int, writes: Writes)
      requires restored && store.cfg == cfg.queue
      modifies this`conditions, this`log, store
      ensures View(Resting) == Handle(cfg, siteId, old(View(Resting)), reading, event, now, writes)
    {
      var work := ExamineReading(reading, event, now, writes);
      work := PersistReading(work, writes);
      work := ResolveRecovered(work, writes);
    }

    method ExamineReading(reading: Reading, event: Event, now: int, writes: Writes) returns (work: Work)
      modifies this`conditions, this`log, store`debounce
      ensures View(work) == Examined(cfg, old(View(Resting)), reading, event, now, writes)
    {
      log := log + TakenNotes(reading, ClearedCodes(cfg, reading), now);
      var taken := Handling(reading, event, now, ActiveChecks(cfg, reading), [], NoAlarm, ClearedCodes(cfg, reading));
      work := CriticalEvents(taken, writes);
    }

    /** The reading itself when nothing is due, else one record for every due alarm. */
    method PersistReading(work: Work, writes: Writes) returns (next: Work)
      requires work.Handling? && work.checks == [] && work.alarm.NoAlarm? && store.cfg == cfg.queue
      modifies this`conditions, this`log, store`rows, store`lastSequence, store`incidents
      ensures View(next) == Persist(cfg, siteId, old(View(work)), writes)
    {
      next := work;
      if work.due == [] {
        PersistPlainRecord(work.event, work.now, writes.disks(0), writes.released(0));
      } else {
        next := PersistAlarms(work, writes);
      }
    }

    /**
     One collection pass; a process handles nothing until it has read back what the last one knew, and unusable
     readings are skipped.
     */
    method CollectOnce(readable: bool, batch: seq<Sample>)
      requires store.cfg == cfg.queue
      modifies this, store
      ensures restored == (old(restored) || readable)
      ensures View(Resting) ==
        if restored then HandleAll(cfg, siteId, Loaded(old(View(Resting)), old(restored)), batch) else old(View(Resting))
    {
      if !restored {
        if !readable {
          return;
        }
        RestoreDebounceState();
      }
      ghost var start := View(Resting);
      for i := 0 to |batch|
        invariant restored
        invariant View(Resting) == HandleAll(cfg, siteId, start, batch[..i])
      {
        assert batch[..i + 1][..i] == batch[..i];
        if batch[i].Unusable? {
          continue;
        }
        CollectReading(batch[i].reading, batch[i].event, batch[i].now, batch[i].writes);
      }
      assert batch[..|batch|] == batch;
    }
  }
}
