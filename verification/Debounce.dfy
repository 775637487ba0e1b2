/**
 The alarm conditions of the collector: a durable table mirrored in memory, read
 and written reading by reading, with crashes between any two store writes.
 */
module Debounce {
  import opened Prelude
  import opened EdgeModel
  import opened QueueLaws

  datatype Reading = Reading(
    deviceId: string,
    assetType: string,
    temperature: real,
    inverterFailed: bool,
    inverterHardFault: bool,
    tamper: bool,
    siteOutage: Option<bool>,
    takenAt: int)

  datatype WatchConfig = WatchConfig(queue: Config, overheat: real, debounce: int)

  /** One alarm a reading speaks for, and how long its condition must have lasted. */
  datatype Check = Check(code: Code, debounce: int, value: Option<real>)

  datatype Condition = Condition(activeSince: int, alarmed: bool)

  type Memory = map<ConditionKey, Condition>

  function KeyOf(r: Reading, code: Code): ConditionKey {
    (AssetOf(r.deviceId, code), code)
  }

  function When<T>(b: bool, x: T): seq<T> {
    if b then [x] else []
  }

  /** The alarms a reading is active for, in the order they are examined. */
  function ActiveChecks(cfg: WatchConfig, r: Reading): seq<Check> {
    When(r.assetType == "battery_bms" && r.temperature >= cfg.overheat, Check(BatteryOverheat, 0, Some(r.temperature)))
    + When(r.assetType == "solar_inverter" && (r.inverterFailed || r.inverterHardFault),
           Check(InverterFailure, if r.inverterHardFault then 0 else cfg.debounce, None))
    + When(r.tamper, Check(TamperDetected, cfg.debounce, None))
    + When(r.siteOutage == Some(true), Check(SiteOutage, cfg.debounce, None))
  }

  /** The alarms a reading clears. */
  function ClearedCodes(cfg: WatchConfig, r: Reading): seq<Code> {
    When(r.assetType == "battery_bms" && r.temperature < cfg.overheat, BatteryOverheat)
    + When(r.assetType == "solar_inverter" && !r.inverterFailed && !r.inverterHardFault, InverterFailure)
    + When(!r.tamper, TamperDetected)
    + When(r.siteOutage == Some(false), SiteOutage)
  }

  /** A reading is active for a code, clears it, or says nothing about it; nothing is both. */
  lemma ReadingIsDecisiveOneWay(cfg: WatchConfig, r: Reading, i: nat, j: nat)
    requires i < |ActiveChecks(cfg, r)| && j < |ClearedCodes(cfg, r)|
    ensures ActiveChecks(cfg, r)[i].code != ClearedCodes(cfg, r)[j]
  {
  }

  // ---- The machine ----

  /**
   What an observer writes down: conditions that began to be tracked, readings taken
   that clear a condition, clears that were written, clears of tracked conditions that
   were lost to a crash or a failed delete, and alarms raised.
   */
  datatype Note =
    | Started(key: ConditionKey, at: int)
    | InactiveTaken(key: ConditionKey, at: int)
    | Cleared(key: ConditionKey, at: int)
    | ClearLost(key: ConditionKey, at: int)
    | Raised(key: ConditionKey, at: int, debounce: int)

  /** A critical record already in the queue, whose incident is still to be opened, then to be remembered. */
  datatype Alarm = NoAlarm | Recorded(check: Check, sequence: nat) | Opened(check: Check, sequence: nat)

  datatype Work =
    | Resting
    | Handling(reading: Reading, event: Event, now: int, checks: seq<Check>, due: seq<Check>, alarm: Alarm, clears: seq<Code>)

  datatype Watch = Watch(db: EdgeDb, memory: Option<Memory>, work: Work, log: seq<Note>)

  const INITIAL := Watch(EMPTY_DB, None, Resting, [])

  datatype WatchStep =
    | RestoreStep
    | ReadStep(reading: Reading, event: Event, now: int)
    | CheckStep(saved: bool)
    | RaiseStep(disk: Disk)
    | OpenStep(stored: bool)
    | MarkStep(released: bool)
    | ClearStep(deleted: bool, resolved: bool)
    | RestStep
    | CrashStep
    | StoreStep(to: EdgeDb)

  /** LoadDebounceConditions: a condition whose alarm is still unresolved counts as opened. */
  function Restored(db: EdgeDb): Memory {
    map key | key in db.debounce :: Condition(db.debounce[key], HasUnresolved(db.incidents, key.0, key.1))
  }

  function Save(debounce: map<ConditionKey, int>, key: ConditionKey, now: int): map<ConditionKey, int> {
    if key in debounce then debounce else debounce[key := now]
  }

  /** One examined alarm: its condition is tracked from now on, and due once it has lasted long enough. */
  function Examine(w: Watch, saved: bool): Watch
    requires w.memory.Some? && w.work.Handling? && w.work.checks != []
  {
    var c, now, memory := w.work.checks[0], w.work.now, w.memory.value;
    var key := KeyOf(w.work.reading, c.code);
    var rest := w.work.(checks := w.work.checks[1..]);
    if key !in memory && !saved then w.(work := rest)
    else
      var state := if key in memory then memory[key] else Condition(now, false);
      var waits := state.alarmed || now - state.activeSince < c.debounce;
      Watch(if key in memory then w.db else w.db.(debounce := Save(w.db.debounce, key, now)),
            Some(memory[key := state]),
            if waits then rest else rest.(due := rest.due + [c]),
            if key in memory then w.log else w.log + [Started(key, now)])
  }

  /** The record that carries the alarm into the queue. */
  function CriticalEvent(event: Event, c: Check): Event {
    event.(priority := PRIORITY_CRITICAL, code := Some(c.code), value := c.value)
  }

  function Raise(cfg: WatchConfig, w: Watch, disk: Disk): Watch
    requires w.work.Handling? && w.work.due != []
  {
    var c := w.work.due[0];
    var rest := w.work.(due := w.work.due[1..]);
    var (db', r) := Insert(cfg.queue, w.db, CriticalEvent(w.work.event, c), Persisted, w.work.now, disk);
    if r.Err? then w.(work := rest)
    else w.(db := db', work := rest.(alarm := Recorded(c, r.value)),
            log := w.log + [Raised(KeyOf(w.work.reading, c.code), w.work.now, c.debounce)])
  }

  /** The incident of a recorded alarm; an event that cannot be sent, or a failed write, ends the alarm's handling. */
  function Open(w: Watch, stored: bool): Watch
    requires w.work.Handling? && w.work.alarm.Recorded?
  {
    var Recorded(c, s) := w.work.alarm;
    if !stored then w.(work := w.work.(alarm := NoAlarm))
    else
      var key := KeyOf(w.work.reading, c.code);
      var incident := NewIncident(key.0, c.code, c.value, w.work.reading.takenAt, w.work.now);
      w.(db := w.db.(incidents := InsertIncident(w.db.incidents, s, incident)), work := w.work.(alarm := Opened(c, s)))
  }

  /** The record is released for upload and the alarm remembered; an alarm whose record was not released is not remembered. */
  function Mark(w: Watch, released: bool): Watch
    requires w.work.Handling? && w.work.alarm.Opened? && w.memory.Some?
  {
    var Opened(c, s) := w.work.alarm;
    if !released then w.(work := w.work.(alarm := NoAlarm))
    else
      var key := KeyOf(w.work.reading, c.code);
      var (db', outcome) := MarkPendingUpload(w.db, s);
      var memory := w.memory.value;
      var memory' := if outcome == Done && key in memory then memory[key := memory[key].(alarmed := true)] else memory;
      w.(db := db', memory := Some(memory'), work := w.work.(alarm := NoAlarm))
  }

  /** An inactive reading forgets the condition durably, then in memory, then resolves the incident. */
  function Clear(w: Watch, deleted: bool, resolved: bool): Watch
    requires w.work.Handling? && w.work.clears != [] && w.memory.Some?
  {
    var key := KeyOf(w.work.reading, w.work.clears[0]);
    var rest := w.work.(clears := w.work.clears[1..]);
    var memory := w.memory.value;
    if key in memory && !deleted then w.(work := rest, log := w.log + [ClearLost(key, w.work.now)])
    else
      var forgotten := if key in memory then w.db.(debounce := w.db.debounce - {key}) else w.db;
      Watch(if resolved then ResolveIncident(forgotten, key.0, key.1, w.work.now) else forgotten,
            Some(memory - {key}), rest, w.log + [Cleared(key, w.work.now)])
  }

  /** One note for every alarm the reading clears. */
  function TakenNotes(r: Reading, codes: seq<Code>, now: int): (notes: seq<Note>)
    ensures forall k | 0 <= k < |notes| :: notes[k].InactiveTaken?
  {
    if codes == [] then []
    else TakenNotes(r, codes[..|codes| - 1], now) + [InactiveTaken(KeyOf(r, codes[|codes| - 1]), now)]
  }

  /** One note for every clear still to be done of a condition that stays in the table. */
  function LostNotes(r: Reading, codes: seq<Code>, debounce: map<ConditionKey, int>, now: int): (notes: seq<Note>)
    ensures forall k | 0 <= k < |notes| :: notes[k].ClearLost?
  {
    if codes == [] then []
    else
      var key := KeyOf(r, codes[|codes| - 1]);
      LostNotes(r, codes[..|codes| - 1], debounce, now) + When(key in debounce, ClearLost(key, now))
  }

  function Take(cfg: WatchConfig, w: Watch, r: Reading, event: Event, now: int): Watch {
    w.(work := Handling(r, event, now, ActiveChecks(cfg, r), [], NoAlarm, ClearedCodes(cfg, r)),
       log := w.log + TakenNotes(r, ClearedCodes(cfg, r), now))
  }

  function Crash(w: Watch): Watch {
    Watch(Reopen(w.db), None, Resting,
          if w.work.Handling? then w.log + LostNotes(w.work.reading, w.work.clears, w.db.debounce, w.work.now) else w.log)
  }

  /** The rest of the agent: it neither touches debounce rows nor opens or resolves incidents. */
  ghost predicate WatchFrame(db: EdgeDb, db': EdgeDb) {
    && db'.debounce == db.debounce && db.lastSequence <= db'.lastSequence
    && db'.incidents.Keys == db.incidents.Keys
    && (forall s | s in db.incidents :: db'.incidents[s].assetId == db.incidents[s].assetId
          && db'.incidents[s].code == db.incidents[s].code && db'.incidents[s].resolvedAt == db.incidents[s].resolvedAt)
  }

  ghost function Apply(cfg: WatchConfig, w: Watch, step: WatchStep): Watch {
    match step
    case RestoreStep => if w.work.Resting? then w.(memory := Some(Restored(w.db))) else w
    case ReadStep(reading, event, now) =>
      if w.memory.Some? && w.work.Resting?
      then Take(cfg, w, reading, event, now)
      else w
    case CheckStep(saved) => if Checking(w) then Examine(w, saved) else w
    case RaiseStep(disk) => if Raising(w) then Raise(cfg, w, disk) else w
    case OpenStep(stored) => if w.work.Handling? && w.work.alarm.Recorded? then Open(w, stored) else w
    case MarkStep(released) => if w.memory.Some? && w.work.Handling? && w.work.alarm.Opened? then Mark(w, released) else w
    case ClearStep(deleted, resolved) => if Clearing(w) then Clear(w, deleted, resolved) else w
    case RestStep => if Finished(w) then w.(work := Resting) else w
    case CrashStep => Crash(w)
    case StoreStep(to) => if WatchFrame(w.db, to) then w.(db := to) else w
  }

  predicate Checking(w: Watch) {
    w.memory.Some? && w.work.Handling? && w.work.checks != []
  }

  predicate Raising(w: Watch) {
    w.memory.Some? && w.work.Handling? && w.work.checks == [] && w.work.alarm.NoAlarm? && w.work.due != []
  }

  predicate Clearing(w: Watch) {
    w.memory.Some? && w.work.Handling? && w.work.checks == [] && w.work.alarm.NoAlarm? && w.work.due == [] && w.work.clears != []
  }

  predicate Finished(w: Watch) {
    w.work.Handling? && w.work.checks == [] && w.work.alarm.NoAlarm? && w.work.due == [] && w.work.clears == []
  }

  ghost function Run(cfg: WatchConfig, steps: seq<WatchStep>): Watch {
    if steps == [] then INITIAL
    else Apply(cfg, Run(cfg, steps[..|steps| - 1]), steps[|steps| - 1])
  }

  // ---- Reading the log ----

  /** Since note i and before note n, nothing began or ended the condition. */
  ghost predicate Since(log: seq<Note>, key: ConditionKey, i: nat, n: nat)
    requires n <= |log|
  {
    forall k | i < k < n :: (log[k].Started? || log[k].Cleared?) ==> log[k].key != key
  }

  /** Before note n the condition had been tracked since note i. */
  ghost predicate Tracked(log: seq<Note>, key: ConditionKey, i: nat, n: nat)
    requires n <= |log|
  {
    i < n && log[i].Started? && log[i].key == key && Since(log, key, i, n)
  }

  /** Between notes i and n a reading was taken that clears the condition. */
  ghost predicate Taken(log: seq<Note>, key: ConditionKey, i: nat, n: nat)
    requires n <= |log|
  {
    exists k | i < k < n :: log[k].InactiveTaken? && log[k].key == key
  }

  /** Between notes i and n a clear of the condition was lost. */
  ghost predicate Lost(log: seq<Note>, key: ConditionKey, i: nat, n: nat)
    requires n <= |log|
  {
    exists k | i < k < n :: log[k].ClearLost? && log[k].key == key
  }

  ghost predicate HasTaken(notes: seq<Note>, key: ConditionKey) {
    exists k | 0 <= k < |notes| :: notes[k].InactiveTaken? && notes[k].key == key
  }

  ghost predicate HasLost(notes: seq<Note>, key: ConditionKey) {
    exists k | 0 <= k < |notes| :: notes[k].ClearLost? && notes[k].key == key
  }

  /** Notes that neither begin nor end the condition. */
  ghost predicate Plain(notes: seq<Note>, key: ConditionKey) {
    forall k | 0 <= k < |notes| :: (notes[k].Started? || notes[k].Cleared?) ==> notes[k].key != key
  }

  lemma TrackedUnique(log: seq<Note>, key: ConditionKey, i: nat, j: nat, n: nat)
    requires n <= |log| && Tracked(log, key, i, n) && Tracked(log, key, j, n)
    ensures i == j
  {
  }

  lemma AppendTracked(log: seq<Note>, notes: seq<Note>, key: ConditionKey, i: nat)
    requires Plain(notes, key)
    ensures Tracked(log + notes, key, i, |log| + |notes|) <==> Tracked(log, key, i, |log|)
  {
    var log' := log + notes;
    assert forall k | 0 <= k < |log| :: log'[k] == log[k];
    assert forall k | |log| <= k < |log'| :: log'[k] == notes[k - |log|];
  }

  lemma AppendTaken(log: seq<Note>, notes: seq<Note>, key: ConditionKey, i: nat)
    requires i < |log|
    ensures Taken(log + notes, key, i, |log| + |notes|) <==> Taken(log, key, i, |log|) || HasTaken(notes, key)
  {
    var log' := log + notes;
    if k :| 0 <= k < |notes| && notes[k].InactiveTaken? && notes[k].key == key {
      assert log'[|log| + k] == notes[k];
    }
    if k :| i < k < |log| && log[k].InactiveTaken? && log[k].key == key {
      assert log'[k] == log[k];
    }
    if k :| i < k < |log'| && log'[k].InactiveTaken? && log'[k].key == key {
      assert log'[k] == if k < |log| then log[k] else notes[k - |log|];
    }
  }

  lemma AppendLost(log: seq<Note>, notes: seq<Note>, key: ConditionKey, i: nat)
    requires i < |log|
    ensures Lost(log + notes, key, i, |log| + |notes|) <==> Lost(log, key, i, |log|) || HasLost(notes, key)
  {
    var log' := log + notes;
    if k :| 0 <= k < |notes| && notes[k].ClearLost? && notes[k].key == key {
      assert log'[|log| + k] == notes[k];
    }
    if k :| i < k < |log| && log[k].ClearLost? && log[k].key == key {
      assert log'[k] == log[k];
    }
    if k :| i < k < |log'| && log'[k].ClearLost? && log'[k].key == key {
      assert log'[k] == if k < |log| then log[k] else notes[k - |log|];
    }
  }

  // ---- The invariant ----

  /** Memory and table track the same conditions from the same moments, and an opened alarm has its incident. */
  ghost predicate Mirror(db: EdgeDb, memory: Memory) {
    && memory.Keys == db.debounce.Keys
    && (forall key | key in memory :: memory[key].activeSince == db.debounce[key])
    && (forall key | key in memory && memory[key].alarmed :: HasUnresolved(db.incidents, key.0, key.1))
  }

  predicate Names(r: Reading, codes: seq<Code>, key: ConditionKey) {
    exists c | c in codes :: KeyOf(r, c) == key
  }

  /** The reading in hand is still to clear the condition. */
  predicate StillToClear(work: Work, key: ConditionKey) {
    work.Handling? && Names(work.reading, work.clears, key)
  }

  /** A reading taken against a tracked condition has lost its clear, or is still in hand. */
  ghost predicate Traced(work: Work, log: seq<Note>, key: ConditionKey, i: nat) {
    && (Lost(log, key, i, |log|) ==> Taken(log, key, i, |log|))
    && (Taken(log, key, i, |log|) ==> Lost(log, key, i, |log|) || StillToClear(work, key))
    && (StillToClear(work, key) ==> Taken(log, key, i, |log|))
  }

  ghost predicate KeyKept(debounce: map<ConditionKey, int>, work: Work, log: seq<Note>, key: ConditionKey) {
    && (key in debounce ==> exists i: nat :: Tracked(log, key, i, |log|))
    && (forall i: nat | Tracked(log, key, i, |log|) :: key in debounce && log[i].at == debounce[key] && Traced(work, log, key, i))
  }

  ghost predicate LogKept(debounce: map<ConditionKey, int>, work: Work, log: seq<Note>) {
    forall key: ConditionKey :: KeyKept(debounce, work, log, key)
  }

  /**
   What an alarm rests on: a condition tracked for its debounce period, in which a clearing reading was taken
   exactly if a clear was lost.
   */
  ghost predicate JustifiedAt(log: seq<Note>, j: nat)
    requires j < |log| && log[j].Raised?
  {
    exists i: nat :: RestsOn(log, i, j)
  }

  ghost predicate RestsOn(log: seq<Note>, i: nat, j: nat)
    requires j < |log| && log[j].Raised?
  {
    var key := log[j].key;
    && Tracked(log, key, i, j)
    && log[i].at + log[j].debounce <= log[j].at
    && (Taken(log, key, i, j) <==> Lost(log, key, i, j))
  }

  ghost predicate Justified(log: seq<Note>) {
    forall j | 0 <= j < |log| && log[j].Raised? :: JustifiedAt(log, j)
  }

  /** What the reading raises and what it clears have no alarm in common. */
  ghost predicate Apart(work: Work) {
    work.Handling? ==>
      && (forall c, d | c in work.checks && d in work.clears :: c.code != d)
      && (forall c, d | c in work.due && d in work.clears :: c.code != d)
  }

  ghost predicate WorkKept(w: Watch) {
    w.work.Handling? && w.memory.Some? ==>
      && (forall i | 0 <= i < |w.work.due| :: DueKept(w, w.work.due[i]))
      && (w.work.alarm.Recorded? ==> w.work.alarm.sequence !in w.db.incidents && w.work.alarm.sequence <= w.db.lastSequence)
      && (w.work.alarm.Opened? ==> HasUnresolved(w.db.incidents, AssetOf(w.work.reading.deviceId, w.work.alarm.check.code), w.work.alarm.check.code))
  }

  ghost predicate DueKept(w: Watch, c: Check)
    requires w.work.Handling?
  {
    var key := KeyOf(w.work.reading, c.code);
    key in w.db.debounce && w.db.debounce[key] + c.debounce <= w.work.now
  }

  ghost predicate IncidentsBound(db: EdgeDb) {
    forall s | s in db.incidents :: s <= db.lastSequence
  }

  ghost predicate Inv(w: Watch) {
    && IncidentsBound(w.db)
    && (w.memory.Some? ==> Mirror(w.db, w.memory.value))
    && LogKept(w.db.debounce, w.work, w.log)
    && Justified(w.log)
    && Apart(w.work)
    && WorkKept(w)
    && (w.work.Handling? ==> w.memory.Some?)
  }

  // ---- What a few more notes do to one condition ----

  /** Notes about other conditions, and work that leaves this one's clear where it was. */
  lemma QuietKey(debounce: map<ConditionKey, int>, debounce': map<ConditionKey, int>, work: Work, work': Work,
                 log: seq<Note>, notes: seq<Note>, key: ConditionKey)
    requires KeyKept(debounce, work, log, key)
    requires Plain(notes, key) && !HasTaken(notes, key) && !HasLost(notes, key)
    requires key in debounce <==> key in debounce'
    requires key in debounce ==> debounce'[key] == debounce[key]
    requires StillToClear(work', key) <==> StillToClear(work, key)
    ensures KeyKept(debounce', work', log + notes, key)
  {
    forall i: nat ensures Tracked(log + notes, key, i, |log| + |notes|) <==> Tracked(log, key, i, |log|) {
      AppendTracked(log, notes, key, i);
    }
    forall i: nat | Tracked(log, key, i, |log|) ensures Traced(work', log + notes, key, i) {
      AppendTaken(log, notes, key, i);
      AppendLost(log, notes, key, i);
    }
  }

  /** A reading is taken that clears this condition. */
  lemma TakenKey(debounce: map<ConditionKey, int>, work: Work, work': Work, log: seq<Note>, notes: seq<Note>, key: ConditionKey)
    requires KeyKept(debounce, work, log, key)
    requires Plain(notes, key) && HasTaken(notes, key) && !HasLost(notes, key)
    requires StillToClear(work', key)
    ensures KeyKept(debounce, work', log + notes, key)
  {
    forall i: nat ensures Tracked(log + notes, key, i, |log| + |notes|) <==> Tracked(log, key, i, |log|) {
      AppendTracked(log, notes, key, i);
    }
    forall i: nat | Tracked(log, key, i, |log|) ensures Traced(work', log + notes, key, i) {
      AppendTaken(log, notes, key, i);
      AppendLost(log, notes, key, i);
    }
  }

  /** Its clear is lost. */
  lemma LostKey(debounce: map<ConditionKey, int>, work: Work, work': Work, log: seq<Note>, notes: seq<Note>, key: ConditionKey)
    requires KeyKept(debounce, work, log, key) && StillToClear(work, key)
    requires Plain(notes, key) && !HasTaken(notes, key) && HasLost(notes, key)
    ensures KeyKept(debounce, work', log + notes, key)
  {
    forall i: nat ensures Tracked(log + notes, key, i, |log| + |notes|) <==> Tracked(log, key, i, |log|) {
      AppendTracked(log, notes, key, i);
    }
    forall i: nat | Tracked(log, key, i, |log|) ensures Traced(work', log + notes, key, i) {
      AppendTaken(log, notes, key, i);
      AppendLost(log, notes, key, i);
    }
  }

  /** Its clear is written. */
  lemma ClearedKey(debounce: map<ConditionKey, int>, work: Work, log: seq<Note>, key: ConditionKey, now: int)
    requires key !in debounce
    ensures KeyKept(debounce, work, log + [Cleared(key, now)], key)
  {
    var log' := log + [Cleared(key, now)];
    forall i: nat ensures !Tracked(log', key, i, |log'|) {
      assert log'[|log|] == Cleared(key, now);
    }
  }

  /** It begins to be tracked. */
  lemma StartedKey(debounce: map<ConditionKey, int>, debounce': map<ConditionKey, int>, work: Work, work': Work, log: seq<Note>, key: ConditionKey, now: int)
    requires KeyKept(debounce, work, log, key) && key !in debounce && !StillToClear(work', key)
    requires key in debounce' && debounce'[key] == now
    ensures KeyKept(debounce', work', log + [Started(key, now)], key)
  {
    var log' := log + [Started(key, now)];
    assert log'[|log|] == Started(key, now);
    assert Tracked(log', key, |log|, |log'|);
    forall i: nat | Tracked(log', key, i, |log'|) ensures i == |log| {
      TrackedUnique(log', key, i, |log|, |log'|);
    }
  }

  lemma JustifiedGrows(log: seq<Note>, notes: seq<Note>)
    requires Justified(log)
    requires forall k | 0 <= k < |notes| :: !notes[k].Raised?
    ensures Justified(log + notes)
  {
    var log' := log + notes;
    assert forall k | |log| <= k < |log'| :: log'[k] == notes[k - |log|];
    forall j | 0 <= j < |log'| && log'[j].Raised? ensures JustifiedAt(log', j) {
      assert j < |log| && JustifiedAt(log, j);
      var i: nat :| RestsOn(log, i, j);
      RestsOnGrows(log, notes, i, j);
    }
  }

  lemma RestsOnGrows(log: seq<Note>, notes: seq<Note>, i: nat, j: nat)
    requires j < |log| && log[j].Raised? && RestsOn(log, i, j)
    ensures RestsOn(log + notes, i, j)
  {
    var log' := log + notes;
    assert forall k | 0 <= k <= j :: log'[k] == log[k];
    assert Taken(log', log[j].key, i, j) <==> Taken(log, log[j].key, i, j);
    assert Lost(log', log[j].key, i, j) <==> Lost(log, log[j].key, i, j);
  }

  /** An alarm raised from a tracked condition that is not about to be cleared. */
  lemma RaisedIsJustified(debounce: map<ConditionKey, int>, work: Work, log: seq<Note>, note: Note)
    requires Justified(log) && note.Raised? && KeyKept(debounce, work, log, note.key) && !StillToClear(work, note.key)
    requires note.key in debounce && debounce[note.key] + note.debounce <= note.at
    ensures Justified(log + [note])
  {
    var log' := log + [note];
    var i: nat :| Tracked(log, note.key, i, |log|);
    assert Traced(work, log, note.key, i);
    assert forall k | 0 <= k < |log| :: log'[k] == log[k];
    assert Taken(log', note.key, i, |log|) <==> Taken(log, note.key, i, |log|);
    assert Lost(log', note.key, i, |log|) <==> Lost(log, note.key, i, |log|);
    assert log'[|log|] == note;
    assert RestsOn(log', i, |log|);
    forall j | 0 <= j < |log'| && log'[j].Raised? ensures JustifiedAt(log', j) {
      if j < |log| {
        assert JustifiedAt(log, j);
        var h: nat :| RestsOn(log, h, j);
        RestsOnGrows(log, [note], h, j);
      }
    }
  }

  // ---- Each step keeps the invariant ----

  lemma {:induction false} TakenNotesName(r: Reading, codes: seq<Code>, now: int, key: ConditionKey)
    ensures HasTaken(TakenNotes(r, codes, now), key) <==> Names(r, codes, key)
  {
    if codes != [] {
      var rest, c := codes[..|codes| - 1], codes[|codes| - 1];
      TakenNotesName(r, rest, now, key);
      var before, notes := TakenNotes(r, rest, now), TakenNotes(r, codes, now);
      assert forall k | 0 <= k < |before| :: notes[k] == before[k];
      assert notes[|before|] == InactiveTaken(KeyOf(r, c), now);
      assert codes == rest + [c];
    }
  }

  lemma {:induction false} LostNotesName(r: Reading, codes: seq<Code>, debounce: map<ConditionKey, int>, now: int, key: ConditionKey)
    ensures HasLost(LostNotes(r, codes, debounce, now), key) <==> Names(r, codes, key) && key in debounce
  {
    if codes != [] {
      var rest, c := codes[..|codes| - 1], codes[|codes| - 1];
      LostNotesName(r, rest, debounce, now, key);
      var before, notes := LostNotes(r, rest, debounce, now), LostNotes(r, codes, debounce, now);
      assert forall k | 0 <= k < |before| :: notes[k] == before[k];
      assert KeyOf(r, c) in debounce ==> notes[|before|] == ClearLost(KeyOf(r, c), now);
      assert codes == rest + [c];
    }
  }

  lemma TakeKeepsInv(cfg: WatchConfig, w: Watch, r: Reading, event: Event, now: int)
    requires Inv(w) && w.memory.Some? && w.work.Resting?
    ensures Inv(Take(cfg, w, r, event, now))
  {
    var w' := Take(cfg, w, r, event, now);
    var notes := TakenNotes(r, ClearedCodes(cfg, r), now);
    forall key: ConditionKey ensures KeyKept(w.db.debounce, w'.work, w'.log, key) {
      TakenNotesName(r, ClearedCodes(cfg, r), now, key);
      assert KeyKept(w.db.debounce, w.work, w.log, key);
      if Names(r, ClearedCodes(cfg, r), key) {
        TakenKey(w.db.debounce, w.work, w'.work, w.log, notes, key);
      } else {
        QuietKey(w.db.debounce, w.db.debounce, w.work, w'.work, w.log, notes, key);
      }
    }
    JustifiedGrows(w.log, notes);
    ReadingIsApart(cfg, r);
  }

  lemma ReadingIsApart(cfg: WatchConfig, r: Reading)
    ensures forall c, d | c in ActiveChecks(cfg, r) && d in ClearedCodes(cfg, r) :: c.code != d
  {
    forall c, d | c in ActiveChecks(cfg, r) && d in ClearedCodes(cfg, r) ensures c.code != d {
      var i :| 0 <= i < |ActiveChecks(cfg, r)| && ActiveChecks(cfg, r)[i] == c;
      var j :| 0 <= j < |ClearedCodes(cfg, r)| && ClearedCodes(cfg, r)[j] == d;
      ReadingIsDecisiveOneWay(cfg, r, i, j);
    }
  }

  /** An alarm the reading raises is not one it clears. */
  lemma RaisedIsNotPending(work: Work, c: Check)
    requires work.Handling? && Apart(work) && (c in work.checks || c in work.due)
    ensures !StillToClear(work, KeyOf(work.reading, c.code))
  {
  }

  lemma ExamineKeepsLog(w: Watch, saved: bool)
    requires Inv(w) && Checking(w)
    ensures LogKept(Examine(w, saved).db.debounce, Examine(w, saved).work, Examine(w, saved).log)
    ensures Justified(Examine(w, saved).log)
  {
    var w' := Examine(w, saved);
    var started := KeyOf(w.work.reading, w.work.checks[0].code);
    var tracked := started in w.memory.value;
    var notes := if tracked || !saved then [] else [Started(started, w.work.now)];
    assert w'.log == w.log + notes;
    JustifiedGrows(w.log, notes);
    RaisedIsNotPending(w.work, w.work.checks[0]);
    forall key: ConditionKey ensures KeyKept(w'.db.debounce, w'.work, w'.log, key) {
      assert KeyKept(w.db.debounce, w.work, w.log, key);
      if key == started && !tracked && saved {
        StartedKey(w.db.debounce, w'.db.debounce, w.work, w'.work, w.log, key, w.work.now);
      } else {
        QuietKey(w.db.debounce, w'.db.debounce, w.work, w'.work, w.log, notes, key);
      }
    }
  }

  lemma ExamineKeepsMirror(w: Watch, saved: bool)
    requires Inv(w) && Checking(w)
    ensures Mirror(Examine(w, saved).db, Examine(w, saved).memory.value)
  {
    var key := KeyOf(w.work.reading, w.work.checks[0].code);
    assert key in w.memory.value <==> key in w.db.debounce;
  }

  lemma ExamineKeepsDue(w: Watch, saved: bool, i: nat)
    requires Inv(w) && Checking(w) && i < |Examine(w, saved).work.due|
    ensures DueKept(Examine(w, saved), Examine(w, saved).work.due[i])
  {
    if i < |w.work.due| {
      assert Examine(w, saved).work.due[i] == w.work.due[i] && DueKept(w, w.work.due[i]);
    }
  }

  lemma ExamineKeepsInv(w: Watch, saved: bool)
    requires Inv(w) && Checking(w)
    ensures Inv(Examine(w, saved))
  {
    ExamineKeepsLog(w, saved);
    ExamineKeepsMirror(w, saved);
    var w' := Examine(w, saved);
    forall i | 0 <= i < |w'.work.due| ensures DueKept(w', w'.work.due[i]) {
      ExamineKeepsDue(w, saved, i);
    }
    assert forall c | c in w'.work.due :: c in w.work.due || c == w.work.checks[0];
  }

  lemma RaiseKeepsLog(cfg: WatchConfig, w: Watch, disk: Disk)
    requires Inv(w) && Raising(w)
    ensures LogKept(w.db.debounce, Raise(cfg, w, disk).work, Raise(cfg, w, disk).log) && Justified(Raise(cfg, w, disk).log)
  {
    var c := w.work.due[0];
    var w' := Raise(cfg, w, disk);
    var note := Raised(KeyOf(w.work.reading, c.code), w.work.now, c.debounce);
    assert DueKept(w, c);
    RaisedIsNotPending(w.work, c);
    assert KeyKept(w.db.debounce, w.work, w.log, note.key);
    RaisedIsJustified(w.db.debounce, w.work, w.log, note);
    forall key: ConditionKey ensures KeyKept(w.db.debounce, w'.work, w'.log, key) {
      assert KeyKept(w.db.debounce, w.work, w.log, key);
      QuietKey(w.db.debounce, w.db.debounce, w.work, w'.work, w.log, [note], key);
    }
  }

  lemma RaiseKeepsInv(cfg: WatchConfig, w: Watch, disk: Disk)
    requires Inv(w) && Raising(w)
    ensures Inv(Raise(cfg, w, disk))
  {
    RaiseKeepsLog(cfg, w, disk);
    var w' := Raise(cfg, w, disk);
    forall i | 0 <= i < |w'.work.due| ensures DueKept(w', w'.work.due[i]) {
      assert DueKept(w, w.work.due[i + 1]);
    }
  }

  lemma OpeningKeepsUnresolved(incidents: map<nat, Incident>, s: nat, incident: Incident, assetId: string, code: Code)
    requires HasUnresolved(incidents, assetId, code)
    ensures HasUnresolved(InsertIncident(incidents, s, incident), assetId, code)
  {
    var i :| i in incidents && Unresolved(incidents, i, assetId, code);
    assert Unresolved(InsertIncident(incidents, s, incident), i, assetId, code);
  }

  /** Steps that write no note and leave the clears in hand alone. */
  lemma SilentKeepsLog(debounce: map<ConditionKey, int>, work: Work, work': Work, log: seq<Note>)
    requires LogKept(debounce, work, log)
    requires forall key: ConditionKey :: StillToClear(work', key) <==> StillToClear(work, key)
    ensures LogKept(debounce, work', log)
  {
    forall key: ConditionKey ensures KeyKept(debounce, work', log, key) {
      assert KeyKept(debounce, work, log, key);
    }
  }

  lemma OpenKeepsIncidents(w: Watch)
    requires Inv(w) && w.work.Handling? && w.work.alarm.Recorded?
    ensures var db' := Open(w, true).db;
      && Mirror(db', w.memory.value) && IncidentsBound(db')
      && HasUnresolved(db'.incidents, AssetOf(w.work.reading.deviceId, w.work.alarm.check.code), w.work.alarm.check.code)
  {
    var Recorded(c, s) := w.work.alarm;
    var key := KeyOf(w.work.reading, c.code);
    var incident := NewIncident(key.0, c.code, c.value, w.work.reading.takenAt, w.work.now);
    var incidents' := InsertIncident(w.db.incidents, s, incident);
    forall k: ConditionKey | HasUnresolved(w.db.incidents, k.0, k.1) ensures HasUnresolved(incidents', k.0, k.1) {
      OpeningKeepsUnresolved(w.db.incidents, s, incident, k.0, k.1);
    }
    assert Unresolved(incidents', s, key.0, c.code) || HasUnresolved(w.db.incidents, key.0, c.code);
  }

  lemma OpenKeepsInv(w: Watch, stored: bool)
    requires Inv(w) && w.work.Handling? && w.work.alarm.Recorded?
    ensures Inv(Open(w, stored))
  {
    var w' := Open(w, stored);
    SilentKeepsLog(w.db.debounce, w.work, w'.work, w.log);
    if stored {
      OpenKeepsIncidents(w);
    }
    forall i | 0 <= i < |w'.work.due| ensures DueKept(w', w'.work.due[i]) {
      assert DueKept(w, w.work.due[i]);
    }
  }

  lemma MarkKeepsMirror(w: Watch, released: bool)
    requires Inv(w) && w.memory.Some? && w.work.Handling? && w.work.alarm.Opened?
    ensures Mirror(Mark(w, released).db, Mark(w, released).memory.value) && IncidentsBound(Mark(w, released).db)
    ensures Mark(w, released).db.debounce == w.db.debounce && Mark(w, released).db.incidents == w.db.incidents
  {
  }

  lemma MarkKeepsInv(w: Watch, released: bool)
    requires Inv(w) && w.memory.Some? && w.work.Handling? && w.work.alarm.Opened?
    ensures Inv(Mark(w, released))
  {
    var w' := Mark(w, released);
    MarkKeepsMirror(w, released);
    SilentKeepsLog(w.db.debounce, w.work, w'.work, w.log);
    forall i | 0 <= i < |w'.work.due| ensures DueKept(w', w'.work.due[i]) {
      assert DueKept(w, w.work.due[i]);
    }
  }

  lemma ResolvingKeepsOthers(db: EdgeDb, assetId: string, code: Code, at: int, key: ConditionKey)
    requires HasUnresolved(db.incidents, key.0, key.1) && key != (assetId, code)
    ensures HasUnresolved(ResolveIncident(db, assetId, code, at).incidents, key.0, key.1)
  {
    var i :| i in db.incidents && Unresolved(db.incidents, i, key.0, key.1);
    assert Unresolved(ResolveIncident(db, assetId, code, at).incidents, i, key.0, key.1);
  }

  lemma ClearKeepsLog(w: Watch, deleted: bool, resolved: bool)
    requires Inv(w) && Clearing(w)
    ensures LogKept(Clear(w, deleted, resolved).db.debounce, Clear(w, deleted, resolved).work, Clear(w, deleted, resolved).log)
    ensures Justified(Clear(w, deleted, resolved).log)
  {
    var w' := Clear(w, deleted, resolved);
    var cleared := KeyOf(w.work.reading, w.work.clears[0]);
    var fails := cleared in w.memory.value && !deleted;
    var notes := if fails then [ClearLost(cleared, w.work.now)] else [Cleared(cleared, w.work.now)];
    assert w'.log == w.log + notes;
    JustifiedGrows(w.log, notes);
    forall key: ConditionKey ensures KeyKept(w'.db.debounce, w'.work, w'.log, key) {
      assert KeyKept(w.db.debounce, w.work, w.log, key);
      if key != cleared {
        assert w.work.clears == [w.work.clears[0]] + w'.work.clears;
        QuietKey(w.db.debounce, w'.db.debounce, w.work, w'.work, w.log, notes, key);
      } else if fails {
        assert w.work.clears[0] in w.work.clears && notes[0].key == key;
        LostKey(w.db.debounce, w.work, w'.work, w.log, notes, key);
      } else {
        ClearedKey(w'.db.debounce, w'.work, w.log, key, w.work.now);
      }
    }
  }

  lemma ClearKeepsInv(w: Watch, deleted: bool, resolved: bool)
    requires Inv(w) && Clearing(w)
    ensures Inv(Clear(w, deleted, resolved))
  {
    ClearKeepsLog(w, deleted, resolved);
    var key := KeyOf(w.work.reading, w.work.clears[0]);
    var memory := w.memory.value;
    if key !in memory || deleted {
      var w' := Clear(w, deleted, resolved);
      forall k | k in w'.memory.value && w'.memory.value[k].alarmed ensures HasUnresolved(w'.db.incidents, k.0, k.1) {
        ResolvingKeepsOthers(w.db, key.0, key.1, w.work.now, k);
      }
    }
  }

  lemma FrameKeepsUnresolved(incidents: map<nat, Incident>, incidents': map<nat, Incident>, assetId: string, code: Code)
    requires HasUnresolved(incidents, assetId, code)
    requires forall s | s in incidents :: s in incidents' && incidents'[s].assetId == incidents[s].assetId
               && incidents'[s].code == incidents[s].code && incidents'[s].resolvedAt == incidents[s].resolvedAt
    ensures HasUnresolved(incidents', assetId, code)
  {
    var i :| i in incidents && Unresolved(incidents, i, assetId, code);
    assert Unresolved(incidents', i, assetId, code);
  }

  lemma StoreStepKeepsInv(w: Watch, to: EdgeDb)
    requires Inv(w) && WatchFrame(w.db, to)
    ensures Inv(w.(db := to))
  {
    forall key: ConditionKey | HasUnresolved(w.db.incidents, key.0, key.1) ensures HasUnresolved(to.incidents, key.0, key.1) {
      FrameKeepsUnresolved(w.db.incidents, to.incidents, key.0, key.1);
    }
    if w.work.Handling? {
      forall i | 0 <= i < |w.work.due| ensures DueKept(w.(db := to), w.work.due[i]) {
        assert DueKept(w, w.work.due[i]);
      }
    }
  }

  lemma CrashKeepsLog(w: Watch)
    requires Inv(w)
    ensures LogKept(w.db.debounce, Resting, Crash(w).log) && Justified(Crash(w).log)
  {
    if w.work.Handling? {
      var notes := LostNotes(w.work.reading, w.work.clears, w.db.debounce, w.work.now);
      JustifiedGrows(w.log, notes);
      forall key: ConditionKey ensures KeyKept(w.db.debounce, Resting, w.log + notes, key) {
        LostNotesName(w.work.reading, w.work.clears, w.db.debounce, w.work.now, key);
        assert KeyKept(w.db.debounce, w.work, w.log, key);
        CrashedKey(w.db.debounce, w.work, w.log, notes, key);
      }
    } else {
      SilentKeepsLog(w.db.debounce, w.work, Resting, w.log);
    }
  }

  lemma CrashedKey(debounce: map<ConditionKey, int>, work: Work, log: seq<Note>, notes: seq<Note>, key: ConditionKey)
    requires KeyKept(debounce, work, log, key) && Plain(notes, key) && !HasTaken(notes, key)
    requires HasLost(notes, key) <==> StillToClear(work, key) && key in debounce
    ensures KeyKept(debounce, Resting, log + notes, key)
  {
    if StillToClear(work, key) && key in debounce {
      LostKey(debounce, work, Resting, log, notes, key);
    } else if !StillToClear(work, key) {
      QuietKey(debounce, debounce, work, Resting, log, notes, key);
    } else {
      var log' := log + notes;
      forall i: nat ensures !Tracked(log', key, i, |log'|) {
        AppendTracked(log, notes, key, i);
      }
    }
  }

  lemma CrashKeepsInv(w: Watch)
    requires Inv(w)
    ensures Inv(Crash(w))
  {
    CrashKeepsLog(w);
    var suppressed := SuppressCovered(RecoverInterrupted(w.db));
    RebuildGrows(suppressed.rows, suppressed.incidents, suppressed.lastSequence);
  }

  lemma RestKeepsInv(w: Watch)
    requires Inv(w) && Finished(w)
    ensures Inv(w.(work := Resting))
  {
    SilentKeepsLog(w.db.debounce, w.work, Resting, w.log);
  }

  lemma StepKeepsInv(cfg: WatchConfig, w: Watch, step: WatchStep)
    requires Inv(w)
    ensures Inv(Apply(cfg, w, step))
  {
    match step {
      case RestoreStep =>
      case ReadStep(reading, event, now) => if w.memory.Some? && w.work.Resting? { TakeKeepsInv(cfg, w, reading, event, now); }
      case CheckStep(saved) => if Checking(w) { ExamineKeepsInv(w, saved); }
      case RaiseStep(disk) => if Raising(w) { RaiseKeepsInv(cfg, w, disk); }
      case OpenStep(stored) => if w.work.Handling? && w.work.alarm.Recorded? { OpenKeepsInv(w, stored); }
      case MarkStep(released) => if w.memory.Some? && w.work.Handling? && w.work.alarm.Opened? { MarkKeepsInv(w, released); }
      case ClearStep(deleted, resolved) => if Clearing(w) { ClearKeepsInv(w, deleted, resolved); }
      case RestStep => if Finished(w) { RestKeepsInv(w); }
      case CrashStep => CrashKeepsInv(w);
      case StoreStep(to) => if WatchFrame(w.db, to) { StoreStepKeepsInv(w, to); }
    }
  }

  lemma InitialInv()
    ensures Inv(INITIAL)
  {
  }

  lemma {:induction false} RunKeepsInv(cfg: WatchConfig, steps: seq<WatchStep>)
    ensures Inv(Run(cfg, steps))
  {
    if steps == [] {
      InitialInv();
    } else {
      RunKeepsInv(cfg, steps[..|steps| - 1]);
      StepKeepsInv(cfg, Run(cfg, steps[..|steps| - 1]), steps[|steps| - 1]);
    }
  }
}
