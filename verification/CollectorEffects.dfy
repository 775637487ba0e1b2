/**
 What handling a reading writes: which conditions are tracked, which alarms are due, which rows and incidents
 appear, which are cleared.
 */
module CollectorEffects {
  import opened Prelude
  import opened Text
  import opened EdgeModel
  import opened Debounce
  import opened Collector
  import opened QueueEffects
  import opened QueueLaws
  import SmsAcceptance
  import SmsMessages

  // ---- What a reading says of each code ----

  predicate Active(cfg: WatchConfig, r: Reading, code: Code) {
    match code
    case BatteryOverheat => r.assetType == "battery_bms" && r.temperature >= cfg.overheat
    case InverterFailure => r.assetType == "solar_inverter" && (r.inverterFailed || r.inverterHardFault)
    case TamperDetected => r.tamper
    case SiteOutage => r.siteOutage == Some(true)
  }

  predicate Healthy(cfg: WatchConfig, r: Reading, code: Code) {
    match code
    case BatteryOverheat => r.assetType == "battery_bms" && r.temperature < cfg.overheat
    case InverterFailure => r.assetType == "solar_inverter" && !r.inverterFailed && !r.inverterHardFault
    case TamperDetected => !r.tamper
    case SiteOutage => r.siteOutage == Some(false)
  }

  /** Overheating and hard faults alarm at once. */
  predicate AtOnce(r: Reading, code: Code) {
    code == BatteryOverheat || (code == InverterFailure && r.inverterHardFault)
  }

  /** The order in which codes are looked at. */
  function Rank(code: Code): nat {
    match code
    case BatteryOverheat => 0
    case InverterFailure => 1
    case TamperDetected => 2
    case SiteOutage => 3
  }

  predicate InOrder(checks: seq<Check>) {
    forall i, j | 0 <= i < j < |checks| :: Rank(checks[i].code) < Rank(checks[j].code)
  }

  predicate SoundChecks(cfg: WatchConfig, r: Reading, checks: seq<Check>) {
    forall i | 0 <= i < |checks| ::
      && Active(cfg, r, checks[i].code)
      && checks[i].debounce == (if AtOnce(r, checks[i].code) then 0 else cfg.debounce)
      && checks[i].value == (if checks[i].code == BatteryOverheat then Some(r.temperature) else None)
  }

  predicate HasCheck(checks: seq<Check>, code: Code) {
    exists i | 0 <= i < |checks| :: checks[i].code == code
  }

  ghost predicate ChecksFor(cfg: WatchConfig, r: Reading, checks: seq<Check>) {
    InOrder(checks) && SoundChecks(cfg, r, checks) && forall code :: Active(cfg, r, code) ==> HasCheck(checks, code)
  }

  predicate ClearsFor(cfg: WatchConfig, r: Reading, codes: seq<Code>) {
    && (forall i, j | 0 <= i < j < |codes| :: Rank(codes[i]) < Rank(codes[j]))
    && (forall code :: code in codes <==> Healthy(cfg, r, code))
  }

  /** The checks for the codes before this one, in order. */
  predicate ChecksBefore(cfg: WatchConfig, r: Reading, checks: seq<Check>, rank: nat) {
    && InOrder(checks) && SoundChecks(cfg, r, checks)
    && (forall i | 0 <= i < |checks| :: Rank(checks[i].code) < rank)
    && (forall code | Rank(code) < rank :: Active(cfg, r, code) ==> HasCheck(checks, code))
  }

  function CodeAt(rank: nat): Code {
    if rank == 0 then BatteryOverheat else if rank == 1 then InverterFailure else if rank == 2 then TamperDetected else SiteOutage
  }

  function CheckOf(cfg: WatchConfig, r: Reading, code: Code): Check {
    Check(code, if AtOnce(r, code) then 0 else cfg.debounce, if code == BatteryOverheat then Some(r.temperature) else None)
  }

  function ChecksUpTo(cfg: WatchConfig, r: Reading, n: nat): seq<Check> {
    if n == 0 then [] else ChecksUpTo(cfg, r, n - 1) + When(Active(cfg, r, CodeAt(n - 1)), CheckOf(cfg, r, CodeAt(n - 1)))
  }

  lemma OneMoreCode(cfg: WatchConfig, r: Reading, checks: seq<Check>, code: Code)
    requires ChecksBefore(cfg, r, checks, Rank(code))
    ensures ChecksBefore(cfg, r, checks + When(Active(cfg, r, code), CheckOf(cfg, r, code)), Rank(code) + 1)
  {
    var c := CheckOf(cfg, r, code);
    var more := checks + When(Active(cfg, r, code), c);
    assert forall i | 0 <= i < |checks| :: more[i] == checks[i];
    assert Active(cfg, r, code) ==> more[|checks|] == c;
    forall other | Rank(other) < Rank(code) + 1 && Active(cfg, r, other)
      ensures HasCheck(more, other)
    {
      if other != code {
        assert HasCheck(checks, other);
      }
    }
  }

  lemma {:induction false} UpToIsBefore(cfg: WatchConfig, r: Reading, n: nat)
    requires n <= 4
    ensures ChecksBefore(cfg, r, ChecksUpTo(cfg, r, n), n)
  {
    if n > 0 {
      UpToIsBefore(cfg, r, n - 1);
      OneMoreCode(cfg, r, ChecksUpTo(cfg, r, n - 1), CodeAt(n - 1));
    }
  }

  lemma ActiveIsUpTo(cfg: WatchConfig, r: Reading)
    ensures ActiveChecks(cfg, r) == ChecksUpTo(cfg, r, 4)
  {
    var (one, two, three) := (ChecksUpTo(cfg, r, 1), ChecksUpTo(cfg, r, 2), ChecksUpTo(cfg, r, 3));
    assert ChecksUpTo(cfg, r, 0) == [];
    assert one == When(Active(cfg, r, BatteryOverheat), CheckOf(cfg, r, BatteryOverheat));
    assert two == one + When(Active(cfg, r, InverterFailure), CheckOf(cfg, r, InverterFailure));
    assert three == two + When(Active(cfg, r, TamperDetected), CheckOf(cfg, r, TamperDetected));
    assert ChecksUpTo(cfg, r, 4) == three + When(Active(cfg, r, SiteOutage), CheckOf(cfg, r, SiteOutage));
  }

  lemma BeforeIsFor(cfg: WatchConfig, r: Reading, checks: seq<Check>)
    requires ChecksBefore(cfg, r, checks, 4)
    ensures ChecksFor(cfg, r, checks)
  {
  }

  /** A reading is checked for exactly the codes it is active for, once each, with the period each demands. */
  lemma ChecksExactly(cfg: WatchConfig, r: Reading)
    ensures ChecksFor(cfg, r, ActiveChecks(cfg, r))
  {
    UpToIsBefore(cfg, r, 4);
    BeforeIsFor(cfg, r, ChecksUpTo(cfg, r, 4));
    ActiveIsUpTo(cfg, r);
  }

  function ClearsUpTo(cfg: WatchConfig, r: Reading, n: nat): seq<Code> {
    if n == 0 then [] else ClearsUpTo(cfg, r, n - 1) + When(Healthy(cfg, r, CodeAt(n - 1)), CodeAt(n - 1))
  }

  lemma ClearedIsUpTo(cfg: WatchConfig, r: Reading)
    ensures ClearedCodes(cfg, r) == ClearsUpTo(cfg, r, 4)
  {
    var (one, two, three) := (ClearsUpTo(cfg, r, 1), ClearsUpTo(cfg, r, 2), ClearsUpTo(cfg, r, 3));
    assert ClearsUpTo(cfg, r, 0) == [];
    assert one == When(Healthy(cfg, r, BatteryOverheat), BatteryOverheat);
    assert two == one + When(Healthy(cfg, r, InverterFailure), InverterFailure);
    assert three == two + When(Healthy(cfg, r, TamperDetected), TamperDetected);
    assert ClearsUpTo(cfg, r, 4) == three + When(Healthy(cfg, r, SiteOutage), SiteOutage);
  }

  lemma {:induction false} ClearsAreHealthy(cfg: WatchConfig, r: Reading, n: nat)
    requires n <= 4
    ensures var codes := ClearsUpTo(cfg, r, n);
      && (forall i, j | 0 <= i < j < |codes| :: Rank(codes[i]) < Rank(codes[j]))
      && (forall code :: code in codes <==> Healthy(cfg, r, code) && Rank(code) < n)
  {
    if n > 0 {
      ClearsAreHealthy(cfg, r, n - 1);
      var earlier := ClearsUpTo(cfg, r, n - 1);
      assert forall i | 0 <= i < |earlier| :: earlier[i] in earlier;
      assert forall code :: Rank(code) == n - 1 <==> code == CodeAt(n - 1);
    }
  }

  /** It clears exactly the codes it is healthy for. */
  lemma ClearsExactly(cfg: WatchConfig, r: Reading)
    ensures ClearsFor(cfg, r, ClearedCodes(cfg, r))
  {
    ClearsAreHealthy(cfg, r, 4);
    ClearedIsUpTo(cfg, r);
  }

  // ---- Tracking ----

  /** Site outages belong to the site, every other condition to its device. */
  function KeyFor(r: Reading, code: Code): ConditionKey {
    (if code == SiteOutage then "site" else r.deviceId, code)
  }

  predicate KeyOfSome(r: Reading, checks: seq<Check>, n: nat, key: ConditionKey)
    requires n <= |checks|
  {
    exists i | 0 <= i < n :: KeyFor(r, checks[i].code) == key
  }

  /** A condition seen before keeps its start; a new one starts now if that could be saved. */
  ghost predicate CheckedTracks(r: Reading, checks: seq<Check>, n: nat, now: int, writes: Writes, memory: Memory, memory': Memory)
    requires n <= |checks|
  {
    forall i | 0 <= i < n ::
      var key := KeyFor(r, checks[i].code);
      if key in memory then key in memory' && memory'[key] == memory[key]
      else if writes.saved(i) then key in memory' && memory'[key] == Condition(now, false)
      else key !in memory'
  }

  ghost predicate UncheckedStays(r: Reading, checks: seq<Check>, n: nat, memory: Memory, memory': Memory)
    requires n <= |checks|
  {
    forall key | !KeyOfSome(r, checks, n, key) :: (key in memory' <==> key in memory) && (key in memory ==> memory'[key] == memory[key])
  }

  ghost predicate MemoryTracks(r: Reading, checks: seq<Check>, n: nat, now: int, writes: Writes, memory: Memory, memory': Memory)
    requires n <= |checks|
  {
    CheckedTracks(r, checks, n, now, writes, memory, memory') && UncheckedStays(r, checks, n, memory, memory')
  }

  /** A start once saved is never overwritten, not even by a process that has lost its memory of it. */
  predicate TableTracks(r: Reading, checks: seq<Check>, n: nat, now: int, writes: Writes, memory: Memory,
                        table: map<ConditionKey, int>, table': map<ConditionKey, int>)
    requires n <= |checks|
  {
    && (forall key | key in table :: key in table' && table'[key] == table[key])
    && (forall key | key in table' && key !in table :: table'[key] == now)
    && (forall i | 0 <= i < n && KeyFor(r, checks[i].code) !in memory && writes.saved(i) :: KeyFor(r, checks[i].code) in table')
    && (forall key | key in table' && key !in table ::
          exists i | 0 <= i < n :: KeyFor(r, checks[i].code) == key && key !in memory && writes.saved(i))
  }

  /** Its condition has lasted long enough and its alarm is not already out; a new condition must have been saved. */
  predicate Due(r: Reading, c: Check, now: int, memory: Memory, saved: bool) {
    var key := KeyFor(r, c.code);
    if key in memory then !memory[key].alarmed && now - memory[key].activeSince >= c.debounce else saved && c.debounce <= 0
  }

  predicate DueAmong(r: Reading, checks: seq<Check>, n: nat, now: int, writes: Writes, memory: Memory, due: seq<Check>)
    requires n <= |checks|
  {
    && InOrder(due)
    && (forall i | 0 <= i < n :: Due(r, checks[i], now, memory, writes.saved(i)) <==> checks[i] in due)
    && (forall c | c in due :: c in checks[..n])
  }

  /** One check: a condition not yet in memory is saved and tracked from now; due if it need not wait. */
  lemma ExamineWrites(w: Watch, saved: bool)
    requires w.memory.Some? && w.work.Handling? && w.work.checks != []
    ensures var (w', c, memory, now) := (Examine(w, saved), w.work.checks[0], w.memory.value, w.work.now);
      var key := KeyFor(w.work.reading, c.code);
      && w'.memory == Some(if key !in memory && saved then memory[key := Condition(now, false)] else memory)
      && w'.db.debounce == (if key !in memory && saved && key !in w.db.debounce then w.db.debounce[key := now] else w.db.debounce)
      && w'.work == w.work.(checks := w.work.checks[1..], due := w.work.due + When(Due(w.work.reading, c, now, memory, saved), c))
      && w'.db == w.db.(debounce := w'.db.debounce)
  {
    var (c, memory) := (w.work.checks[0], w.memory.value);
    var key := KeyFor(w.work.reading, c.code);
    if key in memory {
      assert memory[key := memory[key]] == memory;
    }
    assert w.work.due + [] == w.work.due;
  }

  lemma EarlierKeysDiffer(r: Reading, checks: seq<Check>, n: nat)
    requires InOrder(checks) && n < |checks|
    ensures !KeyOfSome(r, checks, n, KeyFor(r, checks[n].code))
  {
  }

  lemma OneMoreKey(r: Reading, checks: seq<Check>, n: nat, key: ConditionKey)
    requires n < |checks|
    ensures KeyOfSome(r, checks, n + 1, key) <==> KeyOfSome(r, checks, n, key) || key == KeyFor(r, checks[n].code)
  {
  }

  lemma EarlierChecksDiffer(r: Reading, checks: seq<Check>, n: nat, i: nat)
    requires InOrder(checks) && i < n < |checks|
    ensures KeyFor(r, checks[i].code) != KeyFor(r, checks[n].code)
  {
    assert Rank(checks[i].code) < Rank(checks[n].code);
  }

  lemma OneMoreChecked(r: Reading, checks: seq<Check>, n: nat, now: int, writes: Writes, memory: Memory, before: Memory, after: Memory)
    requires InOrder(checks) && n < |checks| && CheckedTracks(r, checks, n, now, writes, memory, before)
    requires var key := KeyFor(r, checks[n].code);
      && (key in before <==> key in memory) && (key in memory ==> before[key] == memory[key])
      && after == if key !in before && writes.saved(n) then before[key := Condition(now, false)] else before
    ensures CheckedTracks(r, checks, n + 1, now, writes, memory, after)
  {
    forall i | 0 <= i < n
      ensures KeyFor(r, checks[i].code) != KeyFor(r, checks[n].code)
    {
      EarlierChecksDiffer(r, checks, n, i);
    }
  }

  lemma OneMoreUnchecked(r: Reading, checks: seq<Check>, n: nat, memory: Memory, before: Memory, after: Memory)
    requires n < |checks| && UncheckedStays(r, checks, n, memory, before)
    requires forall key | key != KeyFor(r, checks[n].code) :: (key in after <==> key in before) && (key in before ==> after[key] == before[key])
    ensures UncheckedStays(r, checks, n + 1, memory, after)
  {
    forall key | !KeyOfSome(r, checks, n + 1, key)
      ensures (key in after <==> key in memory) && (key in memory ==> after[key] == memory[key])
    {
      OneMoreKey(r, checks, n, key);
    }
  }

  lemma OneMoreTracked(r: Reading, checks: seq<Check>, n: nat, now: int, writes: Writes, memory: Memory, before: Memory, after: Memory)
    requires InOrder(checks) && n < |checks| && MemoryTracks(r, checks, n, now, writes, memory, before)
    requires var key := KeyFor(r, checks[n].code);
      after == if key !in before && writes.saved(n) then before[key := Condition(now, false)] else before
    ensures MemoryTracks(r, checks, n + 1, now, writes, memory, after)
  {
    EarlierKeysDiffer(r, checks, n);
    OneMoreChecked(r, checks, n, now, writes, memory, before, after);
    OneMoreUnchecked(r, checks, n, memory, before, after);
  }

  lemma OneMoreSaved(r: Reading, checks: seq<Check>, n: nat, now: int, writes: Writes, memory: Memory, before: Memory,
                     table: map<ConditionKey, int>, saved: map<ConditionKey, int>, saved': map<ConditionKey, int>)
    requires InOrder(checks) && n < |checks| && MemoryTracks(r, checks, n, now, writes, memory, before)
    requires TableTracks(r, checks, n, now, writes, memory, table, saved)
    requires var key := KeyFor(r, checks[n].code);
      saved' == if key !in before && writes.saved(n) && key !in saved then saved[key := now] else saved
    ensures TableTracks(r, checks, n + 1, now, writes, memory, table, saved')
  {
    EarlierKeysDiffer(r, checks, n);
    assert KeyFor(r, checks[n].code) in before <==> KeyFor(r, checks[n].code) in memory;
  }

  lemma DueInOrder(checks: seq<Check>, n: nat, due: seq<Check>)
    requires InOrder(checks) && n < |checks| && InOrder(due) && forall c | c in due :: c in checks[..n]
    ensures InOrder(due + [checks[n]]) && checks[n] !in checks[..n]
  {
    forall i | 0 <= i < |due|
      ensures Rank(due[i].code) < Rank(checks[n].code)
    {
      assert due[i] in checks[..n];
    }
  }

  lemma OneMoreDue(r: Reading, checks: seq<Check>, n: nat, now: int, writes: Writes, memory: Memory, before: Memory,
                   due: seq<Check>)
    requires InOrder(checks) && n < |checks| && MemoryTracks(r, checks, n, now, writes, memory, before)
    requires DueAmong(r, checks, n, now, writes, memory, due)
    ensures DueAmong(r, checks, n + 1, now, writes, memory, due + When(Due(r, checks[n], now, before, writes.saved(n)), checks[n]))
  {
    EarlierKeysDiffer(r, checks, n);
    DueInOrder(checks, n, due);
    MoreDue(r, checks, n, now, writes, memory, due);
    assert Due(r, checks[n], now, before, writes.saved(n)) <==> Due(r, checks[n], now, memory, writes.saved(n));
  }

  lemma MoreDue(r: Reading, checks: seq<Check>, n: nat, now: int, writes: Writes, memory: Memory, due: seq<Check>)
    requires n < |checks| && DueAmong(r, checks, n, now, writes, memory, due)
    requires InOrder(due + [checks[n]]) && checks[n] !in checks[..n]
    ensures DueAmong(r, checks, n + 1, now, writes, memory, due + When(Due(r, checks[n], now, memory, writes.saved(n)), checks[n]))
  {
    assert checks[..n + 1] == checks[..n] + [checks[n]];
    forall i | 0 <= i < n
      ensures checks[i] != checks[n]
    {
      assert checks[i] == checks[..n][i];
    }
  }

  /** What examining the first n checks leaves. */
  ghost predicate ExaminedUpTo(start: Watch, w: Watch, writes: Writes, n: nat)
    requires start.memory.Some? && w.memory.Some? && start.work.Handling? && w.work.Handling? && n <= |start.work.checks|
  {
    var (r, checks, now, memory) := (start.work.reading, start.work.checks, start.work.now, start.memory.value);
    && MemoryTracks(r, checks, n, now, writes, memory, w.memory.value)
    && TableTracks(r, checks, n, now, writes, memory, start.db.debounce, w.db.debounce)
    && DueAmong(r, checks, n, now, writes, memory, w.work.due)
    && w.db == start.db.(debounce := w.db.debounce)
  }

  lemma OneMoreExamined(start: Watch, w: Watch, writes: Writes, n: nat, w': Watch)
    requires start.memory.Some? && start.work.Handling? && InOrder(start.work.checks) && n < |start.work.checks|
    requires w.memory.Some? && w.work.Handling? && w.work == start.work.(checks := start.work.checks[n..], due := w.work.due)
    requires ExaminedUpTo(start, w, writes, n) && w' == Examine(w, writes.saved(n))
    ensures w'.memory.Some? && w'.work.Handling? && ExaminedUpTo(start, w', writes, n + 1)
  {
    var (r, checks, now, memory) := (start.work.reading, start.work.checks, start.work.now, start.memory.value);
    ExamineWrites(w, writes.saved(n));
    assert w.work.checks[0] == checks[n];
    OneMoreTracked(r, checks, n, now, writes, memory, w.memory.value, w'.memory.value);
    OneMoreSaved(r, checks, n, now, writes, memory, w.memory.value, start.db.debounce, w.db.debounce, w'.db.debounce);
    OneMoreDue(r, checks, n, now, writes, memory, w.memory.value, w.work.due);
  }

  lemma NoneExamined(start: Watch, writes: Writes)
    requires start.memory.Some? && start.work.Handling? && start.work.due == []
    ensures ExaminedUpTo(start, start, writes, 0)
  {
  }

  lemma ExamineAllStep(start: Watch, writes: Writes, n: nat, w: Watch)
    requires start.memory.Some? && start.work.Handling? && n < |start.work.checks| && w == ExamineAll(start, writes, n)
    ensures ExamineAll(start, writes, n + 1) == Examine(w, writes.saved(n))
    ensures w.work.Handling? && w.work == start.work.(checks := start.work.checks[n..], due := w.work.due)
  {
  }

  lemma {:induction false} ExaminingTracks(start: Watch, writes: Writes, n: nat, w: Watch)
    requires start.memory.Some? && start.work.Handling? && start.work.due == [] && InOrder(start.work.checks)
    requires n <= |start.work.checks| && w == ExamineAll(start, writes, n)
    ensures w.work.Handling? && ExaminedUpTo(start, w, writes, n)
    decreases n
  {
    if n == 0 {
      NoneExamined(start, writes);
    } else {
      var before := ExamineAll(start, writes, n - 1);
      ExaminingTracks(start, writes, n - 1, before);
      ExamineAllStep(start, writes, n - 1, before);
      OneMoreExamined(start, before, writes, n - 1, w);
    }
  }

  /**
   After examination every active condition that could be saved is tracked from its first sighting, and exactly the
   overdue checks are due.
   */
  lemma ReadingIsExamined(cfg: WatchConfig, w: Watch, r: Reading, event: Event, now: int, writes: Writes)
    requires w.memory.Some?
    ensures var (w', checks, memory) := (Examined(cfg, w, r, event, now, writes), ActiveChecks(cfg, r), w.memory.value);
      && ChecksFor(cfg, r, checks) && ClearsFor(cfg, r, w'.work.clears)
      && MemoryTracks(r, checks, |checks|, now, writes, memory, w'.memory.value)
      && TableTracks(r, checks, |checks|, now, writes, memory, w.db.debounce, w'.db.debounce)
      && DueAmong(r, checks, |checks|, now, writes, memory, w'.work.due)
      && w'.db == w.db.(debounce := w'.db.debounce)
      && w'.work == Handling(r, event, now, [], w'.work.due, NoAlarm, w'.work.clears)
  {
    ChecksExactly(cfg, r);
    ClearsExactly(cfg, r);
    var taken := Take(cfg, w, r, event, now);
    ExaminingTracks(taken, writes, |taken.work.checks|, Examined(cfg, w, r, event, now, writes));
  }

  // ---- Ordinary telemetry ----

  /** Of an event offered to the queue: one new row under the next sequence if the store has room for it, else nothing. */
  predicate Queued(cfg: Config, event: Event, now: int, disk: Disk, status: Status, db: EdgeDb, db': EdgeDb) {
    var s := db.lastSequence + 1;
    && db'.sync == db.sync
    && (!Admitted(cfg, db, event, disk) ==> db'.rows == db.rows && db'.lastSequence == db.lastSequence)
    && (Admitted(cfg, db, event, disk) ==>
          && s in db'.rows && db'.rows == db.rows[s := db'.rows[s]] && db'.lastSequence == s
          && JustQueued(db'.rows[s], event, status, now, db.sync.replayMode))
  }

  predicate SameQueue(db: EdgeDb, db': EdgeDb) {
    db'.rows == db.rows && db'.lastSequence == db.lastSequence && db'.sync == db.sync
  }

  /** Only the queue's own tables matter. */
  lemma QueuedIsOfTheQueue(cfg: Config, event: Event, now: int, disk: Disk, status: Status, db: EdgeDb, db': EdgeDb, from: EdgeDb, to: EdgeDb)
    requires Queued(cfg, event, now, disk, status, db, db') && SameQueue(db, from) && SameQueue(db', to)
    ensures Queued(cfg, event, now, disk, status, from, to)
  {
  }

  lemma PlainWrites(cfg: WatchConfig, db: EdgeDb, event: Event, now: int, disk: Disk, released: bool)
    ensures var db' := PersistPlain(cfg, db, event, now, disk, released);
      && Queued(cfg.queue, event, now, disk, if released then PendingUpload else Persisted, db, db')
      && db' == db.(rows := db'.rows, lastSequence := db'.lastSequence)
  {
    InsertWrites(cfg.queue, db, event, Persisted, now, disk);
    var (db', r) := Insert(cfg.queue, db, event, Persisted, now, disk);
    if r.Ok? && released {
      ReleaseWrites(db', r.value);
    }
  }

  lemma {:induction false} ClearingIsOffQueue(w: Watch, writes: Writes, n: nat)
    requires w.memory.Some? && w.work.Handling? && n <= |w.work.clears|
    ensures var db' := ClearAll(w, writes, n).db; db' == w.db.(debounce := db'.debounce, incidents := db'.incidents)
  {
    if n > 0 {
      ClearingIsOffQueue(w, writes, n - 1);
    }
  }

  predicate NothingDue(r: Reading, checks: seq<Check>, now: int, writes: Writes, memory: Memory) {
    forall i | 0 <= i < |checks| :: !Due(r, checks[i], now, memory, writes.saved(i))
  }

  lemma NothingIsDue(r: Reading, checks: seq<Check>, now: int, writes: Writes, memory: Memory, due: seq<Check>)
    requires DueAmong(r, checks, |checks|, now, writes, memory, due)
    ensures due == [] <==> NothingDue(r, checks, now, writes, memory)
  {
    assert checks[..|checks|] == checks;
    if due != [] {
      assert due[0] in due;
    }
  }

  /**
   A reading with no alarm due becomes one row if the store has room for it, pending once released; else the queue
   is as it was.
   */
  lemma PlainReadingIsQueued(cfg: WatchConfig, siteId: string, w: Watch, r: Reading, event: Event, now: int, writes: Writes)
    requires w.memory.Some? && NothingDue(r, ActiveChecks(cfg, r), now, writes, w.memory.value)
    ensures Queued(cfg.queue, event, now, writes.disks(0), if writes.released(0) then PendingUpload else Persisted,
                   w.db, Handle(cfg, siteId, w, r, event, now, writes).db)
  {
    ReadingIsExamined(cfg, w, r, event, now, writes);
    var examined := Examined(cfg, w, r, event, now, writes);
    NothingIsDue(r, ActiveChecks(cfg, r), now, writes, w.memory.value, examined.work.due);
    var persisted := Persist(cfg, siteId, examined, writes);
    PlainWrites(cfg, examined.db, event, now, writes.disks(0), writes.released(0));
    ClearingIsOffQueue(persisted, writes, |ClearedCodes(cfg, r)|);
    QueuedIsOfTheQueue(cfg.queue, event, now, writes.disks(0), if writes.released(0) then PendingUpload else Persisted,
                       examined.db, persisted.db, w.db, Handle(cfg, siteId, w, r, event, now, writes).db);
  }

  // ---- Alarms ----

  predicate OpenFor(incidents: map<nat, Incident>, assetId: string, code: Code) {
    exists s | s in incidents :: incidents[s].assetId == assetId && incidents[s].code == code && incidents[s].resolvedAt.None?
  }

  /** The incident of an alarm: measured when the reading was taken, opened now, nothing yet heard of it. */
  predicate IncidentOfAlarm(i: Incident, r: Reading, c: Check, now: int) {
    i.assetId == KeyFor(r, c.code).0 && i.code == c.code && i.temperature == c.value
    && i.eventAt == r.takenAt && i.openedAt == now && Unheard(i)
  }

  /** The record an alarm puts in the queue: the reading's event, critical, under the alarm's code and value. */
  function RecordOf(event: Event, c: Check): Event {
    event.(priority := 1, code := Some(c.code), value := c.value)
  }

  /** What the SMS of an alarm would say. */
  function Told(siteId: string, r: Reading, c: Check, s: nat): SmsMessages.FallbackEvent
    requires s < UINT64_LIMIT && -INT64_LIMIT <= r.takenAt < INT64_LIMIT
  {
    SmsMessages.FallbackEvent(siteId, KeyFor(r, c.code).0, s, c.code, c.value, Some(r.takenAt))
  }

  /** An incident is opened only for an alarm that can be told in one segment. */
  lemma FormatsExactly(siteId: string, r: Reading, c: Check, s: nat)
    requires s < UINT64_LIMIT && -INT64_LIMIT <= r.takenAt < INT64_LIMIT
    ensures var e := Told(siteId, r, c, s);
      Formats(siteId, r, c, s) <==>
        && SmsAcceptance.Tellable(e)
        && SmsMessages.Septets(SmsAcceptance.TextOf(SmsAcceptance.OrderOf(c.code), SmsAcceptance.PrintedValues(e))) <= 160
  {
    var e := Told(siteId, r, c, s);
    if SmsAcceptance.Tellable(e) {
      SmsAcceptance.FormattedExactly(e, SmsAcceptance.TextOf(SmsAcceptance.OrderOf(e.code), SmsAcceptance.PrintedValues(e)));
    }
    if SmsMessages.Format(e).Ok? {
      SmsAcceptance.FormattedExactly(e, SmsMessages.Format(e).value);
    }
  }

  /** The record is admitted and its incident can be sent and is stored. */
  predicate Sendable(cfg: WatchConfig, siteId: string, r: Reading, event: Event, c: Check, writes: Writes, i: nat, db: EdgeDb) {
    Admitted(cfg.queue, db, RecordOf(event, c), writes.disks(i)) && Formats(siteId, r, c, db.lastSequence + 1) && writes.incidents(i)
  }

  /** An incident opens under the record's sequence unless one is open for the asset and code. */
  predicate IncidentOpened(r: Reading, c: Check, now: int, s: nat, sendable: bool, incidents: map<nat, Incident>, incidents': map<nat, Incident>) {
    var opens := sendable && s !in incidents && !OpenFor(incidents, KeyFor(r, c.code).0, c.code);
    && (!opens ==> incidents' == incidents)
    && (opens ==> s in incidents' && incidents' == incidents[s := incidents'[s]] && IncidentOfAlarm(incidents'[s], r, c, now))
  }

  /** One due alarm, from the writes it meets: its record, its incident, its release, its memory. */
  predicate AlarmHandled(cfg: WatchConfig, siteId: string, r: Reading, event: Event, now: int, c: Check, writes: Writes, i: nat,
                         db: EdgeDb, memory: Memory, db': EdgeDb, memory': Memory) {
    var sendable := Sendable(cfg, siteId, r, event, c, writes, i, db);
    var out := sendable && writes.released(i);
    var key := KeyFor(r, c.code);
    && Queued(cfg.queue, RecordOf(event, c), now, writes.disks(i), if out then PendingUpload else Persisted, db, db')
    && IncidentOpened(r, c, now, db.lastSequence + 1, sendable, db.incidents, db'.incidents)
    && db' == db.(rows := db'.rows, lastSequence := db'.lastSequence, incidents := db'.incidents)
    && memory' == if out && key in memory then memory[key := memory[key].(alarmed := true)] else memory
  }

  lemma OpenWrites(w: Watch, stored: bool)
    requires w.work.Handling? && w.work.alarm.Recorded?
    ensures var (w', r, Recorded(c, s)) := (Open(w, stored), w.work.reading, w.work.alarm);
      && w' == w.(db := w.db.(incidents := w'.db.incidents), work := w.work.(alarm := if stored then Opened(c, s) else NoAlarm))
      && IncidentOpened(r, c, w.work.now, s, stored, w.db.incidents, w'.db.incidents)
  {
    var (r, Recorded(c, s)) := (w.work.reading, w.work.alarm);
    assert HasUnresolved(w.db.incidents, KeyFor(r, c.code).0, c.code) <==> OpenFor(w.db.incidents, KeyFor(r, c.code).0, c.code) by {
      if HasUnresolved(w.db.incidents, KeyFor(r, c.code).0, c.code) {
        var t :| t in w.db.incidents && Unresolved(w.db.incidents, t, KeyFor(r, c.code).0, c.code);
      }
      if OpenFor(w.db.incidents, KeyFor(r, c.code).0, c.code) {
        var t :| t in w.db.incidents && w.db.incidents[t].assetId == KeyFor(r, c.code).0 && w.db.incidents[t].code == c.code
                 && w.db.incidents[t].resolvedAt.None?;
        assert Unresolved(w.db.incidents, t, KeyFor(r, c.code).0, c.code);
      }
    }
  }

  lemma MarkWrites(w: Watch, released: bool)
    requires w.memory.Some? && w.work.Handling? && w.work.alarm.Opened?
    requires var s := w.work.alarm.sequence; s in w.db.rows && w.db.rows[s].status == Persisted
    ensures var (w', Opened(c, s), memory) := (Mark(w, released), w.work.alarm, w.memory.value);
      var key := KeyFor(w.work.reading, c.code);
      && w'.work == w.work.(alarm := NoAlarm)
      && w'.db == (if released then
                     w.db.(rows := w.db.rows[s := w.db.rows[s].(status := PendingUpload, nextAttempt := None, lastError := None)])
                   else w.db)
      && w'.memory == Some(if released && key in memory then memory[key := memory[key].(alarmed := true)] else memory)
  {
    ReleaseWrites(w.db, w.work.alarm.sequence);
  }

  /** The record of an alarm, before its incident. */
  lemma RaiseWrites(cfg: WatchConfig, w: Watch, disk: Disk)
    requires Raising(w)
    ensures var (w', c, s) := (Raise(cfg, w, disk), w.work.due[0], w.db.lastSequence + 1);
      var admitted := Admitted(cfg.queue, w.db, RecordOf(w.work.event, c), disk);
      && Queued(cfg.queue, RecordOf(w.work.event, c), w.work.now, disk, Persisted, w.db, w'.db)
      && w'.memory == w.memory && w'.db == w.db.(rows := w'.db.rows, lastSequence := w'.db.lastSequence)
      && w'.work == w.work.(due := w.work.due[1..], alarm := if admitted then Recorded(c, s) else NoAlarm)
  {
    InsertWrites(cfg.queue, w.db, CriticalEvent(w.work.event, w.work.due[0]), Persisted, w.work.now, disk);
  }

  lemma RecordedAlarmSteps(cfg: WatchConfig, siteId: string, w: Watch, raised: Watch, writes: Writes, i: nat)
    requires Raising(w) && raised == Raise(cfg, w, writes.disks(i)) && raised.work.alarm.Recorded?
    ensures var stored := IncidentStored(siteId, raised.work, writes, i);
      RaiseOne(cfg, siteId, w, writes, i) == if stored then Mark(Open(raised, stored), writes.released(i)) else Open(raised, stored)
  {
  }

  lemma RecordedAlarmWrites(cfg: WatchConfig, siteId: string, w: Watch, raised: Watch, writes: Writes, i: nat)
    requires Raising(w) && raised == Raise(cfg, w, writes.disks(i)) && raised.work.alarm.Recorded?
    ensures var (w', c) := (RaiseOne(cfg, siteId, w, writes, i), w.work.due[0]);
      AlarmHandled(cfg, siteId, w.work.reading, w.work.event, w.work.now, c, writes, i, w.db, w.memory.value, w'.db, w'.memory.value)
  {
    var (w', c) := (RaiseOne(cfg, siteId, w, writes, i), w.work.due[0]);
    RaiseWrites(cfg, w, writes.disks(i));
    RecordedAlarmSteps(cfg, siteId, w, raised, writes, i);
    var stored := IncidentStored(siteId, raised.work, writes, i);
    var during := Open(raised, stored);
    OpenWrites(raised, stored);
    if stored {
      MarkWrites(during, writes.released(i));
    }
    StepsAreAlarm(cfg, siteId, w.work.reading, w.work.event, w.work.now, c, writes, i, w.db, w.memory.value,
                  raised.db, during.db, w'.db, w'.memory.value);
  }

  lemma StepsAreAlarm(cfg: WatchConfig, siteId: string, r: Reading, event: Event, now: int, c: Check, writes: Writes, i: nat,
                      db: EdgeDb, memory: Memory, raised: EdgeDb, during: EdgeDb, db': EdgeDb, memory': Memory)
    requires Admitted(cfg.queue, db, RecordOf(event, c), writes.disks(i))
    requires Queued(cfg.queue, RecordOf(event, c), now, writes.disks(i), Persisted, db, raised)
    requires raised == db.(rows := raised.rows, lastSequence := raised.lastSequence)
    requires var sendable := Sendable(cfg, siteId, r, event, c, writes, i, db);
      && during == raised.(incidents := during.incidents)
      && IncidentOpened(r, c, now, db.lastSequence + 1, sendable, db.incidents, during.incidents)
    requires var (s, key, out) := (db.lastSequence + 1, KeyFor(r, c.code), Sendable(cfg, siteId, r, event, c, writes, i, db) && writes.released(i));
      && s in raised.rows
      && db' == (if out then
                   during.(rows := raised.rows[s := raised.rows[s].(status := PendingUpload, nextAttempt := None, lastError := None)])
                 else during)
      && memory' == if out && key in memory then memory[key := memory[key].(alarmed := true)] else memory
    ensures AlarmHandled(cfg, siteId, r, event, now, c, writes, i, db, memory, db', memory')
  {
    var out := Sendable(cfg, siteId, r, event, c, writes, i, db) && writes.released(i);
    ReleasedIsQueued(cfg.queue, RecordOf(event, c), now, writes.disks(i), out, db, raised, db');
  }

  /** Recording and releasing, put together. */
  lemma ReleasedIsQueued(cfg: Config, record: Event, now: int, disk: Disk, out: bool, db: EdgeDb, raised: EdgeDb, db': EdgeDb)
    requires Admitted(cfg, db, record, disk) && Queued(cfg, record, now, disk, Persisted, db, raised)
    requires var s := db.lastSequence + 1;
      && db'.lastSequence == s && db'.sync == db.sync
      && db'.rows == (if out then
                        raised.rows[s := raised.rows[s].(status := PendingUpload, nextAttempt := None, lastError := None)]
                      else raised.rows)
    ensures Queued(cfg, record, now, disk, if out then PendingUpload else Persisted, db, db')
  {
  }

  lemma AlarmWrites(cfg: WatchConfig, siteId: string, w: Watch, writes: Writes, i: nat)
    requires Raising(w)
    ensures var w' := RaiseOne(cfg, siteId, w, writes, i);
      AlarmHandled(cfg, siteId, w.work.reading, w.work.event, w.work.now, w.work.due[0], writes, i, w.db, w.memory.value, w'.db, w'.memory.value)
  {
    RaiseWrites(cfg, w, writes.disks(i));
    var raised := Raise(cfg, w, writes.disks(i));
    if raised.work.alarm.Recorded? {
      RecordedAlarmWrites(cfg, siteId, w, raised, writes, i);
    }
  }

  /** One alarm after another, each from what the one before it left. */
  predicate AlarmTrail(cfg: WatchConfig, siteId: string, r: Reading, event: Event, now: int, due: seq<Check>, writes: Writes,
                       dbs: seq<EdgeDb>, memories: seq<Memory>) {
    && |dbs| == |memories| == |due| + 1
    && forall i | 0 <= i < |due| ::
         AlarmHandled(cfg, siteId, r, event, now, due[i], writes, i, dbs[i], memories[i], dbs[i + 1], memories[i + 1])
  }

  lemma {:induction false} RaisingTrails(cfg: WatchConfig, siteId: string, w: Watch, writes: Writes, n: nat)
    returns (dbs: seq<EdgeDb>, memories: seq<Memory>)
    requires w.memory.Some? && w.work.Handling? && w.work.checks == [] && w.work.alarm.NoAlarm? && n <= |w.work.due|
    ensures AlarmTrail(cfg, siteId, w.work.reading, w.work.event, w.work.now, w.work.due[..n], writes, dbs, memories)
    ensures dbs[0] == w.db && memories[0] == w.memory.value
    ensures var w' := RaiseAll(cfg, siteId, w, writes, n); dbs[n] == w'.db && memories[n] == w'.memory.value
  {
    if n == 0 {
      dbs, memories := [w.db], [w.memory.value];
    } else {
      var before, remembered := RaisingTrails(cfg, siteId, w, writes, n - 1);
      var (last, next) := (RaiseAll(cfg, siteId, w, writes, n - 1), RaiseAll(cfg, siteId, w, writes, n));
      dbs, memories := before + [next.db], remembered + [next.memory.value];
      AlarmWrites(cfg, siteId, last, writes, n - 1);
      assert last.work.due[0] == w.work.due[n - 1];
      assert w.work.due[..n][..n - 1] == w.work.due[..n - 1];
      forall i | 0 <= i < n
        ensures AlarmHandled(cfg, siteId, w.work.reading, w.work.event, w.work.now, w.work.due[..n][i], writes, i,
                             dbs[i], memories[i], dbs[i + 1], memories[i + 1])
      {
        if i < n - 1 {
          assert w.work.due[..n][i] == w.work.due[..n - 1][i];
        }
      }
    }
  }

  // ---- What raising keeps ----

  /** Rows and incidents already there stay as they are, and sequences only grow. */
  ghost predicate Keeps(db: EdgeDb, db': EdgeDb) {
    && Numbered(db') && db.lastSequence <= db'.lastSequence
    && (forall s | s in db.rows :: s in db'.rows && db'.rows[s] == db.rows[s])
  }

  ghost predicate KeepsIncidents(db: EdgeDb, db': EdgeDb) {
    forall s | s in db.incidents :: s in db'.incidents && db'.incidents[s] == db.incidents[s]
  }

  /** Raising changes what is remembered only of conditions whose alarms are due. */
  ghost predicate KeepsMemory(r: Reading, due: seq<Check>, n: nat, memory: Memory, memory': Memory)
    requires n <= |due|
  {
    && memory'.Keys == memory.Keys
    && forall key | key in memory && !KeyOfSome(r, due, n, key) :: memory'[key] == memory[key]
  }

  lemma KeepsOn(a: EdgeDb, b: EdgeDb, c: EdgeDb)
    requires Keeps(a, b) && Keeps(b, c)
    ensures Keeps(a, c)
  {
  }

  lemma QueuedKeeps(cfg: Config, event: Event, now: int, disk: Disk, status: Status, db: EdgeDb, db': EdgeDb)
    requires Queued(cfg, event, now, disk, status, db, db') && Numbered(db)
    ensures Keeps(db, db')
  {
  }

  lemma OpenedKeeps(r: Reading, c: Check, now: int, s: nat, sendable: bool, db: EdgeDb, db': EdgeDb)
    requires IncidentOpened(r, c, now, s, sendable, db.incidents, db'.incidents)
    ensures KeepsIncidents(db, db')
  {
  }

  lemma AlarmKeeps(cfg: WatchConfig, siteId: string, r: Reading, event: Event, now: int, c: Check, writes: Writes, i: nat,
                   db: EdgeDb, memory: Memory, db': EdgeDb, memory': Memory)
    requires AlarmHandled(cfg, siteId, r, event, now, c, writes, i, db, memory, db', memory')
    ensures Numbered(db) ==> Keeps(db, db')
    ensures KeepsIncidents(db, db') && db'.debounce == db.debounce && db'.sync == db.sync
    ensures memory'.Keys == memory.Keys && forall key | key in memory && key != KeyFor(r, c.code) :: memory'[key] == memory[key]
  {
    var sendable := Sendable(cfg, siteId, r, event, c, writes, i, db);
    OpenedKeeps(r, c, now, db.lastSequence + 1, sendable, db, db');
    if Numbered(db) {
      QueuedKeeps(cfg.queue, RecordOf(event, c), now, writes.disks(i), if sendable && writes.released(i) then PendingUpload else Persisted, db, db');
    }
  }

  lemma OneMoreRemembered(r: Reading, due: seq<Check>, n: nat, memory: Memory, before: Memory, after: Memory)
    requires n < |due| && KeepsMemory(r, due, n, memory, before) && after.Keys == before.Keys
    requires forall key | key in before && key != KeyFor(r, due[n].code) :: after[key] == before[key]
    ensures KeepsMemory(r, due, n + 1, memory, after)
  {
    forall key | key in memory && !KeyOfSome(r, due, n + 1, key)
      ensures after[key] == memory[key]
    {
      OneMoreKey(r, due, n, key);
    }
  }

  /** What raising the first n alarms keeps. */
  ghost predicate RaisedKeeps(r: Reading, due: seq<Check>, n: nat, db: EdgeDb, memory: Memory, db': EdgeDb, memory': Memory)
    requires n <= |due|
  {
    && (Numbered(db) ==> Keeps(db, db'))
    && KeepsIncidents(db, db') && db'.debounce == db.debounce && db'.sync == db.sync
    && KeepsMemory(r, due, n, memory, memory')
  }

  lemma OneMoreRaised(cfg: WatchConfig, siteId: string, r: Reading, due: seq<Check>, n: nat, writes: Writes, start: EdgeDb, memory: Memory,
                      w: Watch, w': Watch)
    requires Raising(w) && n < |due| && w.work.reading == r && w.work.due == due[n..] && w' == RaiseOne(cfg, siteId, w, writes, n)
    requires RaisedKeeps(r, due, n, start, memory, w.db, w.memory.value)
    ensures RaisedKeeps(r, due, n + 1, start, memory, w'.db, w'.memory.value)
  {
    AlarmWrites(cfg, siteId, w, writes, n);
    AlarmKeeps(cfg, siteId, r, w.work.event, w.work.now, due[n], writes, n, w.db, w.memory.value, w'.db, w'.memory.value);
    OneMoreRemembered(r, due, n, memory, w.memory.value, w'.memory.value);
    if Numbered(start) {
      KeepsOn(start, w.db, w'.db);
    }
  }

  lemma {:induction false} RaisingKeeps(cfg: WatchConfig, siteId: string, w: Watch, writes: Writes, n: nat)
    requires w.memory.Some? && w.work.Handling? && w.work.checks == [] && w.work.alarm.NoAlarm? && n <= |w.work.due|
    ensures var w' := RaiseAll(cfg, siteId, w, writes, n);
      RaisedKeeps(w.work.reading, w.work.due, n, w.db, w.memory.value, w'.db, w'.memory.value)
  {
    if n > 0 {
      RaisingKeeps(cfg, siteId, w, writes, n - 1);
      OneMoreRaised(cfg, siteId, w.work.reading, w.work.due, n - 1, writes, w.db, w.memory.value,
                    RaiseAll(cfg, siteId, w, writes, n - 1), RaiseAll(cfg, siteId, w, writes, n));
    }
  }

  lemma PersistingKeeps(cfg: WatchConfig, siteId: string, w: Watch, writes: Writes)
    requires w.memory.Some? && w.work.Handling? && w.work.checks == [] && w.work.alarm.NoAlarm?
    ensures var w' := Persist(cfg, siteId, w, writes);
      RaisedKeeps(w.work.reading, w.work.due, |w.work.due|, w.db, w.memory.value, w'.db, w'.memory.value)
  {
    if w.work.due == [] {
      PlainWrites(cfg, w.db, w.work.event, w.work.now, writes.disks(0), writes.released(0));
    } else {
      RaisingKeeps(cfg, siteId, w, writes, |w.work.due|);
    }
  }

  // ---- Clearing ----

  predicate KeyOfCode(r: Reading, codes: seq<Code>, n: nat, key: ConditionKey)
    requires n <= |codes|
  {
    exists i | 0 <= i < n :: KeyFor(r, codes[i]) == key
  }

  /** A clear fails where the condition is remembered and its durable row cannot be deleted. */
  predicate Fails(key: ConditionKey, memory: Memory, deleted: bool) {
    key in memory && !deleted
  }

  predicate Deletes(key: ConditionKey, memory: Memory, deleted: bool) {
    key in memory && deleted
  }

  /** What is forgotten in memory: the conditions of these codes whose clear does not fail, and nothing else. */
  ghost predicate MemoryForgets(r: Reading, codes: seq<Code>, n: nat, writes: Writes, memory: Memory, memory': Memory)
    requires n <= |codes|
  {
    && (forall i | 0 <= i < n :: KeyFor(r, codes[i]) in memory' <==> Fails(KeyFor(r, codes[i]), memory, writes.deleted(i)))
    && (forall key | key in memory' :: key in memory && memory'[key] == memory[key])
    && (forall key | key in memory && !KeyOfCode(r, codes, n, key) :: key in memory')
  }

  /** What is deleted from the table: the rows of these codes that are remembered and can be deleted, and nothing else. */
  ghost predicate TableForgets(r: Reading, codes: seq<Code>, n: nat, writes: Writes, memory: Memory,
                               table: map<ConditionKey, int>, table': map<ConditionKey, int>)
    requires n <= |codes|
  {
    && (forall i | 0 <= i < n ::
          KeyFor(r, codes[i]) in table' <==> KeyFor(r, codes[i]) in table && !Deletes(KeyFor(r, codes[i]), memory, writes.deleted(i)))
    && (forall key | key in table' :: key in table && table'[key] == table[key])
    && (forall key | key in table && !KeyOfCode(r, codes, n, key) :: key in table')
  }

  /** Clear i of these codes is written and its incidents can be resolved. */
  predicate Resolves(r: Reading, codes: seq<Code>, i: nat, writes: Writes, memory: Memory, incident: Incident)
    requires i < |codes|
  {
    && incident.assetId == KeyFor(r, codes[i]).0 && incident.code == codes[i] && incident.resolvedAt.None?
    && !Fails(KeyFor(r, codes[i]), memory, writes.deleted(i)) && writes.resolved(i)
  }

  predicate ResolvedAmong(r: Reading, codes: seq<Code>, n: nat, writes: Writes, memory: Memory, incident: Incident)
    requires n <= |codes|
  {
    exists i | 0 <= i < n :: Resolves(r, codes, i, writes, memory, incident)
  }

  /** Open incidents of the cleared codes end now; no other incident changes. */
  ghost predicate IncidentsEnd(r: Reading, codes: seq<Code>, n: nat, now: int, writes: Writes, memory: Memory,
                               incidents: map<nat, Incident>, incidents': map<nat, Incident>)
    requires n <= |codes|
  {
    && incidents'.Keys == incidents.Keys
    && forall s | s in incidents ::
         incidents'[s] == if ResolvedAmong(r, codes, n, writes, memory, incidents[s])
                          then incidents[s].(resolvedAt := Some(now)) else incidents[s]
  }

  predicate CodesInOrder(codes: seq<Code>) {
    forall i, j | 0 <= i < j < |codes| :: Rank(codes[i]) < Rank(codes[j])
  }

  lemma ClearWrites(w: Watch, deleted: bool, resolved: bool)
    requires Clearing(w)
    ensures var (w', key, memory) := (Clear(w, deleted, resolved), KeyFor(w.work.reading, w.work.clears[0]), w.memory.value);
      && w'.memory == Some(if Fails(key, memory, deleted) then memory else memory - {key})
      && w'.db.debounce == (if key in memory && deleted then w.db.debounce - {key} else w.db.debounce)
      && w'.db.incidents.Keys == w.db.incidents.Keys
      && (forall s | s in w.db.incidents ::
            var i := w.db.incidents[s];
            w'.db.incidents[s] ==
            if !Fails(key, memory, deleted) && resolved && i.assetId == key.0 && i.code == key.1 && i.resolvedAt.None?
            then i.(resolvedAt := Some(w.work.now)) else i)
      && w'.work == w.work.(clears := w.work.clears[1..])
  {
  }

  lemma EarlierCodesDiffer(r: Reading, codes: seq<Code>, n: nat)
    requires CodesInOrder(codes) && n < |codes|
    ensures forall i | 0 <= i < n :: KeyFor(r, codes[i]) != KeyFor(r, codes[n])
    ensures !KeyOfCode(r, codes, n, KeyFor(r, codes[n]))
  {
    forall i | 0 <= i < n
      ensures KeyFor(r, codes[i]) != KeyFor(r, codes[n])
    {
      assert Rank(codes[i]) < Rank(codes[n]);
    }
  }

  lemma NotAmongMore(r: Reading, codes: seq<Code>, n: nat, key: ConditionKey)
    requires n < |codes| && !KeyOfCode(r, codes, n + 1, key)
    ensures !KeyOfCode(r, codes, n, key) && key != KeyFor(r, codes[n])
  {
  }

  lemma OneMoreForgotten(r: Reading, codes: seq<Code>, n: nat, writes: Writes, memory: Memory, before: Memory, after: Memory)
    requires CodesInOrder(codes) && n < |codes| && MemoryForgets(r, codes, n, writes, memory, before)
    requires var key := KeyFor(r, codes[n]); after == if Fails(key, before, writes.deleted(n)) then before else before - {key}
    ensures MemoryForgets(r, codes, n + 1, writes, memory, after)
    ensures KeyFor(r, codes[n]) in before <==> KeyFor(r, codes[n]) in memory
  {
    EarlierCodesDiffer(r, codes, n);
    var last := KeyFor(r, codes[n]);
    assert forall key | key != last :: key in after <==> key in before;
    forall key | key in memory && !KeyOfCode(r, codes, n + 1, key)
      ensures key in after
    {
      NotAmongMore(r, codes, n, key);
    }
  }

  lemma OneMoreDeleted(r: Reading, codes: seq<Code>, n: nat, writes: Writes, memory: Memory,
                       table: map<ConditionKey, int>, before: map<ConditionKey, int>, after: map<ConditionKey, int>)
    requires CodesInOrder(codes) && n < |codes| && TableForgets(r, codes, n, writes, memory, table, before)
    requires var key := KeyFor(r, codes[n]); after == if Deletes(key, memory, writes.deleted(n)) then before - {key} else before
    ensures TableForgets(r, codes, n + 1, writes, memory, table, after)
  {
    EarlierCodesDiffer(r, codes, n);
    var last := KeyFor(r, codes[n]);
    assert forall key | key != last :: key in after <==> key in before;
    forall key | key in table && !KeyOfCode(r, codes, n + 1, key)
      ensures key in after
    {
      NotAmongMore(r, codes, n, key);
    }
  }

  lemma OneMoreEnded(r: Reading, codes: seq<Code>, n: nat, writes: Writes, memory: Memory, incident: Incident)
    requires CodesInOrder(codes) && n < |codes|
    ensures ResolvedAmong(r, codes, n + 1, writes, memory, incident) <==>
              ResolvedAmong(r, codes, n, writes, memory, incident) || Resolves(r, codes, n, writes, memory, incident)
    ensures ResolvedAmong(r, codes, n, writes, memory, incident) ==> incident.code != codes[n]
  {
    if ResolvedAmong(r, codes, n + 1, writes, memory, incident) {
      var i :| 0 <= i < n + 1 && Resolves(r, codes, i, writes, memory, incident);
      assert i < n || i == n;
    }
  }

  lemma OneMoreClear(w: Watch, codes: seq<Code>, n: nat, writes: Writes, memory: Memory, incidents: map<nat, Incident>)
    requires Clearing(w) && CodesInOrder(codes) && n < |codes| && w.work.clears == codes[n..]
    requires var r := w.work.reading;
      && (KeyFor(r, codes[n]) in memory <==> KeyFor(r, codes[n]) in w.memory.value)
      && IncidentsEnd(r, codes, n, w.work.now, writes, memory, incidents, w.db.incidents)
    ensures var w' := Clear(w, writes.deleted(n), writes.resolved(n));
      IncidentsEnd(w.work.reading, codes, n + 1, w.work.now, writes, memory, incidents, w'.db.incidents)
  {
    ClearWrites(w, writes.deleted(n), writes.resolved(n));
    var r := w.work.reading;
    assert w.work.clears[0] == codes[n];
    forall s | s in incidents
      ensures var i' := Clear(w, writes.deleted(n), writes.resolved(n)).db.incidents[s];
        i' == if ResolvedAmong(r, codes, n + 1, writes, memory, incidents[s]) then incidents[s].(resolvedAt := Some(w.work.now)) else incidents[s]
    {
      OneMoreEnded(r, codes, n, writes, memory, incidents[s]);
    }
  }

  /** What clearing the first n codes leaves of memory, conditions and incidents, from the state it starts in. */
  ghost predicate ForgetsUpTo(r: Reading, codes: seq<Code>, n: nat, now: int, writes: Writes, db: EdgeDb, memory: Memory, db': EdgeDb, memory': Memory)
    requires n <= |codes|
  {
    && MemoryForgets(r, codes, n, writes, memory, memory')
    && TableForgets(r, codes, n, writes, memory, db.debounce, db'.debounce)
    && IncidentsEnd(r, codes, n, now, writes, memory, db.incidents, db'.incidents)
  }

  lemma OneMoreForgets(w: Watch, codes: seq<Code>, n: nat, writes: Writes, db: EdgeDb, memory: Memory, w': Watch)
    requires Clearing(w) && CodesInOrder(codes) && n < |codes| && w.work.clears == codes[n..]
    requires ForgetsUpTo(w.work.reading, codes, n, w.work.now, writes, db, memory, w.db, w.memory.value)
    requires w' == Clear(w, writes.deleted(n), writes.resolved(n))
    ensures w'.memory.Some? && ForgetsUpTo(w.work.reading, codes, n + 1, w.work.now, writes, db, memory, w'.db, w'.memory.value)
  {
    ClearWrites(w, writes.deleted(n), writes.resolved(n));
    assert w.work.clears[0] == codes[n];
    OneMoreForgotten(w.work.reading, codes, n, writes, memory, w.memory.value, w'.memory.value);
    OneMoreDeleted(w.work.reading, codes, n, writes, memory, db.debounce, w.db.debounce, w'.db.debounce);
    OneMoreClear(w, codes, n, writes, memory, db.incidents);
  }

  lemma {:induction false} ClearingForgets(w: Watch, writes: Writes, n: nat)
    requires w.memory.Some? && w.work.Handling? && w.work.checks == [] && w.work.alarm.NoAlarm? && w.work.due == []
    requires CodesInOrder(w.work.clears) && n <= |w.work.clears|
    ensures var w' := ClearAll(w, writes, n);
      ForgetsUpTo(w.work.reading, w.work.clears, n, w.work.now, writes, w.db, w.memory.value, w'.db, w'.memory.value)
  {
    if n > 0 {
      ClearingForgets(w, writes, n - 1);
      OneMoreForgets(ClearAll(w, writes, n - 1), w.work.clears, n - 1, writes, w.db, w.memory.value, ClearAll(w, writes, n));
    }
  }

  // ---- One reading as a whole ----

  /** Examined, persisted and cleared: what the clearing of a handled reading starts from and leaves. */
  lemma HandlingForgets(cfg: WatchConfig, siteId: string, w: Watch, r: Reading, event: Event, now: int, writes: Writes)
    requires w.memory.Some?
    ensures var (x, w') := (Persist(cfg, siteId, Examined(cfg, w, r, event, now, writes), writes), Handle(cfg, siteId, w, r, event, now, writes));
      var codes := ClearedCodes(cfg, r);
      && ClearsFor(cfg, r, codes) && SameQueue(x.db, w'.db)
      && ForgetsUpTo(r, codes, |codes|, now, writes, x.db, x.memory.value, w'.db, w'.memory.value)
  {
    ReadingIsExamined(cfg, w, r, event, now, writes);
    var persisted := Persist(cfg, siteId, Examined(cfg, w, r, event, now, writes), writes);
    ClearingForgets(persisted, writes, |ClearedCodes(cfg, r)|);
    ClearingIsOffQueue(persisted, writes, |ClearedCodes(cfg, r)|);
  }

  lemma PersistingTrails(cfg: WatchConfig, siteId: string, w: Watch, writes: Writes) returns (dbs: seq<EdgeDb>, memories: seq<Memory>)
    requires Raising(w)
    ensures AlarmTrail(cfg, siteId, w.work.reading, w.work.event, w.work.now, w.work.due, writes, dbs, memories)
    ensures dbs[0] == w.db && memories[0] == w.memory.value
    ensures var (w', n) := (Persist(cfg, siteId, w, writes), |w.work.due|); dbs[n] == w'.db && memories[n] == w'.memory.value
  {
    dbs, memories := RaisingTrails(cfg, siteId, w, writes, |w.work.due|);
    assert w.work.due[..|w.work.due|] == w.work.due;
  }

  /**
   The alarms of a reading are handled in order from the state after examination, and clearing leaves the queue as
   they left it.
   */
  lemma AlarmsAreQueued(cfg: WatchConfig, siteId: string, w: Watch, r: Reading, event: Event, now: int, writes: Writes)
    returns (due: seq<Check>, dbs: seq<EdgeDb>, memories: seq<Memory>)
    requires w.memory.Some? && !NothingDue(r, ActiveChecks(cfg, r), now, writes, w.memory.value)
    ensures due != [] && DueAmong(r, ActiveChecks(cfg, r), |ActiveChecks(cfg, r)|, now, writes, w.memory.value, due)
    ensures AlarmTrail(cfg, siteId, r, event, now, due, writes, dbs, memories)
    ensures dbs[0] == w.db.(debounce := dbs[0].debounce)
    ensures MemoryTracks(r, ActiveChecks(cfg, r), |ActiveChecks(cfg, r)|, now, writes, w.memory.value, memories[0])
    ensures var (w', codes) := (Handle(cfg, siteId, w, r, event, now, writes), ClearedCodes(cfg, r));
      && SameQueue(dbs[|due|], w'.db)
      && ForgetsUpTo(r, codes, |codes|, now, writes, dbs[|due|], memories[|due|], w'.db, w'.memory.value)
  {
    ReadingIsExamined(cfg, w, r, event, now, writes);
    HandlingForgets(cfg, siteId, w, r, event, now, writes);
    var examined := Examined(cfg, w, r, event, now, writes);
    due := examined.work.due;
    NothingIsDue(r, ActiveChecks(cfg, r), now, writes, w.memory.value, due);
    dbs, memories := PersistingTrails(cfg, siteId, examined, writes);
  }

  lemma HealthyIsNotActive(cfg: WatchConfig, r: Reading, i: nat)
    requires i < |ClearedCodes(cfg, r)|
    ensures !KeyOfSome(r, ActiveChecks(cfg, r), |ActiveChecks(cfg, r)|, KeyFor(r, ClearedCodes(cfg, r)[i]))
  {
    var (codes, checks) := (ClearedCodes(cfg, r), ActiveChecks(cfg, r));
    forall j | 0 <= j < |checks|
      ensures KeyFor(r, checks[j].code) != KeyFor(r, codes[i])
    {
      ReadingIsDecisiveOneWay(cfg, r, j, i);
    }
  }

  lemma DueIsChecked(r: Reading, checks: seq<Check>, now: int, writes: Writes, memory: Memory, due: seq<Check>, key: ConditionKey)
    requires DueAmong(r, checks, |checks|, now, writes, memory, due) && KeyOfSome(r, due, |due|, key)
    ensures KeyOfSome(r, checks, |checks|, key)
  {
    var i :| 0 <= i < |due| && KeyFor(r, due[i].code) == key;
    assert due[i] in due && checks[..|checks|] == checks;
    var j :| 0 <= j < |checks| && checks[j] == due[i];
  }

  /** The same condition, remembered and stored alike, at two moments. */
  predicate SameCondition(key: ConditionKey, db: EdgeDb, memory: Memory, db': EdgeDb, memory': Memory) {
    && (key in memory' <==> key in memory) && (key in memory ==> memory'[key] == memory[key])
    && (key in db'.debounce <==> key in db.debounce) && (key in db.debounce ==> db'.debounce[key] == db.debounce[key])
  }

  lemma UncheckedIsSame(r: Reading, checks: seq<Check>, now: int, writes: Writes, key: ConditionKey,
                        db: EdgeDb, memory: Memory, db': EdgeDb, memory': Memory)
    requires MemoryTracks(r, checks, |checks|, now, writes, memory, memory')
    requires TableTracks(r, checks, |checks|, now, writes, memory, db.debounce, db'.debounce)
    requires !KeyOfSome(r, checks, |checks|, key)
    ensures SameCondition(key, db, memory, db', memory')
  {
  }

  /** A condition the reading is not active for is the same until clearing. */
  lemma InactiveUntilClearing(cfg: WatchConfig, siteId: string, w: Watch, r: Reading, event: Event, now: int, writes: Writes, key: ConditionKey)
    requires w.memory.Some? && !KeyOfSome(r, ActiveChecks(cfg, r), |ActiveChecks(cfg, r)|, key)
    ensures var x := Persist(cfg, siteId, Examined(cfg, w, r, event, now, writes), writes);
      SameCondition(key, w.db, w.memory.value, x.db, x.memory.value) && KeepsIncidents(w.db, x.db)
  {
    ReadingIsExamined(cfg, w, r, event, now, writes);
    var (examined, checks) := (Examined(cfg, w, r, event, now, writes), ActiveChecks(cfg, r));
    UncheckedIsSame(r, checks, now, writes, key, w.db, w.memory.value, examined.db, examined.memory.value);
    PersistingKeeps(cfg, siteId, examined, writes);
    var due := examined.work.due;
    if KeyOfSome(r, due, |due|, key) {
      DueIsChecked(r, checks, now, writes, w.memory.value, due, key);
    }
  }

  /**
   Condition i of these codes is forgotten unless it is remembered and cannot be deleted; with it its open
   incidents end, then and there.
   */
  ghost predicate ConditionEnds(r: Reading, codes: seq<Code>, i: nat, now: int, writes: Writes, db: EdgeDb, memory: Memory, db': EdgeDb, memory': Memory)
    requires i < |codes|
  {
    var (key, deleted) := (KeyFor(r, codes[i]), writes.deleted(i));
    && (key in memory' <==> key in memory && !deleted)
    && (key in db'.debounce <==> key in db.debounce && !(key in memory && deleted))
    && (forall s | s in db.incidents && db.incidents[s].assetId == key.0 && db.incidents[s].code == key.1 ::
          && s in db'.incidents
          && var ends := db.incidents[s].resolvedAt.None? && (key in memory ==> deleted) && writes.resolved(i);
             db'.incidents[s] == if ends then db.incidents[s].(resolvedAt := Some(now)) else db.incidents[s])
  }

  lemma ForgettingEnds(r: Reading, codes: seq<Code>, i: nat, now: int, writes: Writes, db: EdgeDb, memory: Memory,
                       x: EdgeDb, xMemory: Memory, db': EdgeDb, memory': Memory)
    requires CodesInOrder(codes) && i < |codes| && ForgetsUpTo(r, codes, |codes|, now, writes, x, xMemory, db', memory')
    requires SameCondition(KeyFor(r, codes[i]), db, memory, x, xMemory) && KeepsIncidents(db, x)
    ensures ConditionEnds(r, codes, i, now, writes, db, memory, db', memory')
  {
    var key := KeyFor(r, codes[i]);
    forall s | s in db.incidents && db.incidents[s].assetId == key.0 && db.incidents[s].code == key.1
      ensures ResolvedAmong(r, codes, |codes|, writes, xMemory, db.incidents[s]) <==> Resolves(r, codes, i, writes, xMemory, db.incidents[s])
    {
      OnlyOneResolves(r, codes, i, writes, xMemory, db.incidents[s]);
    }
  }

  lemma OnlyOneResolves(r: Reading, codes: seq<Code>, i: nat, writes: Writes, memory: Memory, incident: Incident)
    requires CodesInOrder(codes) && i < |codes| && incident.code == codes[i]
    ensures ResolvedAmong(r, codes, |codes|, writes, memory, incident) <==> Resolves(r, codes, i, writes, memory, incident)
  {
    forall j | 0 <= j < |codes| && Resolves(r, codes, j, writes, memory, incident)
      ensures j == i
    {
    }
  }

  /** Every condition a reading is healthy for ends. */
  lemma HealthyReadingClears(cfg: WatchConfig, siteId: string, w: Watch, r: Reading, event: Event, now: int, writes: Writes, i: nat)
    requires w.memory.Some? && i < |ClearedCodes(cfg, r)|
    ensures var w' := Handle(cfg, siteId, w, r, event, now, writes);
      ConditionEnds(r, ClearedCodes(cfg, r), i, now, writes, w.db, w.memory.value, w'.db, w'.memory.value)
  {
    var codes := ClearedCodes(cfg, r);
    HandlingForgets(cfg, siteId, w, r, event, now, writes);
    HealthyIsNotActive(cfg, r, i);
    InactiveUntilClearing(cfg, siteId, w, r, event, now, writes, KeyFor(r, codes[i]));
    var x := Persist(cfg, siteId, Examined(cfg, w, r, event, now, writes), writes);
    var w' := Handle(cfg, siteId, w, r, event, now, writes);
    ForgettingEnds(r, codes, i, now, writes, w.db, w.memory.value, x.db, x.memory.value, w'.db, w'.memory.value);
  }

  lemma ForgettingSpares(r: Reading, codes: seq<Code>, code: Code, now: int, writes: Writes, db: EdgeDb, memory: Memory,
                         x: EdgeDb, xMemory: Memory, db': EdgeDb, memory': Memory)
    requires code !in codes && ForgetsUpTo(r, codes, |codes|, now, writes, x, xMemory, db', memory')
    requires SameCondition(KeyFor(r, code), db, memory, x, xMemory) && KeepsIncidents(db, x)
    ensures SameCondition(KeyFor(r, code), db, memory, db', memory')
    ensures forall s | s in db.incidents && db.incidents[s].code == code :: s in db'.incidents && db'.incidents[s] == db.incidents[s]
  {
    assert forall i | 0 <= i < |codes| :: codes[i] in codes;
    assert !KeyOfCode(r, codes, |codes|, KeyFor(r, code));
  }

  /** Of a condition the reading says nothing about, nothing changes, nor of its incidents. */
  lemma SilentConditionStays(cfg: WatchConfig, siteId: string, w: Watch, r: Reading, event: Event, now: int, writes: Writes, code: Code)
    requires w.memory.Some? && !Active(cfg, r, code) && !Healthy(cfg, r, code)
    ensures var w' := Handle(cfg, siteId, w, r, event, now, writes);
      && SameCondition(KeyFor(r, code), w.db, w.memory.value, w'.db, w'.memory.value)
      && (forall s | s in w.db.incidents && w.db.incidents[s].code == code :: s in w'.db.incidents && w'.db.incidents[s] == w.db.incidents[s])
  {
    ChecksExactly(cfg, r);
    HandlingForgets(cfg, siteId, w, r, event, now, writes);
    InactiveUntilClearing(cfg, siteId, w, r, event, now, writes, KeyFor(r, code));
    var x := Persist(cfg, siteId, Examined(cfg, w, r, event, now, writes), writes);
    var w' := Handle(cfg, siteId, w, r, event, now, writes);
    ForgettingSpares(r, ClearedCodes(cfg, r), code, now, writes, w.db, w.memory.value, x.db, x.memory.value, w'.db, w'.memory.value);
  }

  // ---- A batch ----

  /** Handling a reading adds rows and changes none. */
  lemma HandlingKeepsRows(cfg: WatchConfig, siteId: string, w: Watch, r: Reading, event: Event, now: int, writes: Writes)
    requires w.memory.Some? && Numbered(w.db)
    ensures Keeps(w.db, Handle(cfg, siteId, w, r, event, now, writes).db)
  {
    ReadingIsExamined(cfg, w, r, event, now, writes);
    HandlingForgets(cfg, siteId, w, r, event, now, writes);
    PersistingKeeps(cfg, siteId, Examined(cfg, w, r, event, now, writes), writes);
  }

  lemma OneMoreSample(cfg: WatchConfig, siteId: string, w: Watch, batch: seq<Sample>, i: nat)
    requires w.memory.Some? && i < |batch|
    ensures var (before, after, sample) := (HandleAll(cfg, siteId, w, batch[..i]), HandleAll(cfg, siteId, w, batch[..i + 1]), batch[i]);
      after == if sample.Unusable? then before
               else Handle(cfg, siteId, before, sample.reading, sample.event, sample.now, sample.writes)
  {
    assert batch[..i + 1][..i] == batch[..i];
  }

  lemma OneMoreSampleKeepsRows(cfg: WatchConfig, siteId: string, w: Watch, batch: seq<Sample>, i: nat, before: Watch, after: Watch)
    requires w.memory.Some? && i < |batch| && before == HandleAll(cfg, siteId, w, batch[..i]) && after == HandleAll(cfg, siteId, w, batch[..i + 1])
    requires Numbered(before.db)
    ensures Keeps(before.db, after.db)
  {
    OneMoreSample(cfg, siteId, w, batch, i);
    var last := batch[i];
    if last.Sample? {
      HandlingKeepsRows(cfg, siteId, before, last.reading, last.event, last.now, last.writes);
    }
  }

  /** Each database keeps the rows of the one before it. */
  ghost predicate KeepsChain(dbs: seq<EdgeDb>) {
    forall k | 0 <= k < |dbs| - 1 :: Numbered(dbs[k]) ==> Keeps(dbs[k], dbs[k + 1])
  }

  lemma {:induction false} ChainKeeps(dbs: seq<EdgeDb>, i: nat, j: nat)
    requires KeepsChain(dbs) && i <= j < |dbs| && Numbered(dbs[i])
    ensures Keeps(dbs[i], dbs[j])
    decreases j
  {
    if i < j {
      ChainKeeps(dbs, i, j - 1);
      KeepsOn(dbs[i], dbs[j - 1], dbs[j]);
    }
  }

  function DbAfter(cfg: WatchConfig, siteId: string, w: Watch, batch: seq<Sample>, i: nat): EdgeDb
    requires w.memory.Some? && i <= |batch|
  {
    HandleAll(cfg, siteId, w, batch[..i]).db
  }

  lemma BatchIsChain(cfg: WatchConfig, siteId: string, w: Watch, batch: seq<Sample>, k: nat)
    requires w.memory.Some? && k < |batch| && Numbered(DbAfter(cfg, siteId, w, batch, k))
    ensures Keeps(DbAfter(cfg, siteId, w, batch, k), DbAfter(cfg, siteId, w, batch, k + 1))
  {
    OneMoreSampleKeepsRows(cfg, siteId, w, batch, k, HandleAll(cfg, siteId, w, batch[..k]), HandleAll(cfg, siteId, w, batch[..k + 1]));
  }

  /** Rows of the first i readings are still there after the first j. */
  lemma BatchKeepsRows(cfg: WatchConfig, siteId: string, w: Watch, batch: seq<Sample>, i: nat, j: nat)
    requires w.memory.Some? && i <= j <= |batch| && Numbered(HandleAll(cfg, siteId, w, batch[..i]).db)
    ensures Keeps(HandleAll(cfg, siteId, w, batch[..i]).db, HandleAll(cfg, siteId, w, batch[..j]).db)
  {
    var dbs := seq(|batch| + 1, k requires 0 <= k <= |batch| => DbAfter(cfg, siteId, w, batch, k));
    forall k | 0 <= k < |dbs| - 1 && Numbered(dbs[k])
      ensures Keeps(dbs[k], dbs[k + 1])
    {
      BatchIsChain(cfg, siteId, w, batch, k);
    }
    ChainKeeps(dbs, i, j);
    assert dbs[i] == DbAfter(cfg, siteId, w, batch, i) && dbs[j] == DbAfter(cfg, siteId, w, batch, j);
  }

  lemma RowsKeptUpTo(cfg: WatchConfig, siteId: string, w: Watch, batch: seq<Sample>, i: nat)
    requires w.memory.Some? && Numbered(w.db) && i <= |batch|
    ensures Keeps(w.db, HandleAll(cfg, siteId, w, batch[..i]).db)
  {
    assert batch[..0] == [];
    BatchKeepsRows(cfg, siteId, w, batch, 0, i);
  }

  lemma RowsKeptFrom(cfg: WatchConfig, siteId: string, w: Watch, batch: seq<Sample>, i: nat)
    requires w.memory.Some? && i <= |batch| && Numbered(HandleAll(cfg, siteId, w, batch[..i]).db)
    ensures Keeps(HandleAll(cfg, siteId, w, batch[..i]).db, HandleAll(cfg, siteId, w, batch).db)
  {
    assert batch[..|batch|] == batch;
    BatchKeepsRows(cfg, siteId, w, batch, i, |batch|);
  }

  /** A reading that can be used, has no alarm due and finds room in the store. */
  predicate QuietSample(cfg: WatchConfig, w: Watch, sample: Sample) {
    && w.memory.Some? && sample.Sample?
    && NothingDue(sample.reading, ActiveChecks(cfg, sample.reading), sample.now, sample.writes, w.memory.value)
    && Admitted(cfg.queue, w.db, sample.event, sample.writes.disks(0))
  }

  /** Its row under the sequence after these, pending if it could be released. */
  predicate SampleQueued(sample: Sample, before: EdgeDb, rows: map<nat, Row>)
    requires sample.Sample?
  {
    var s := before.lastSequence + 1;
    && s in rows && s !in before.rows
    && JustQueued(rows[s], sample.event, if sample.writes.released(0) then PendingUpload else Persisted, sample.now, before.sync.replayMode)
  }

  lemma QuietSampleIsQueued(cfg: WatchConfig, siteId: string, before: Watch, sample: Sample, after: Watch)
    requires QuietSample(cfg, before, sample) && Numbered(before.db)
    requires after == Handle(cfg, siteId, before, sample.reading, sample.event, sample.now, sample.writes)
    ensures SampleQueued(sample, before.db, after.db.rows)
  {
    PlainReadingIsQueued(cfg, siteId, before, sample.reading, sample.event, sample.now, sample.writes);
  }

  lemma KeepingKeepsSample(sample: Sample, before: EdgeDb, db: EdgeDb, db': EdgeDb)
    requires sample.Sample? && SampleQueued(sample, before, db.rows) && Keeps(db, db')
    ensures SampleQueued(sample, before, db'.rows)
  {
  }

  lemma OneMoreQuietSample(cfg: WatchConfig, siteId: string, w: Watch, batch: seq<Sample>, i: nat, before: Watch, after: Watch)
    requires w.memory.Some? && i < |batch| && before == HandleAll(cfg, siteId, w, batch[..i]) && after == HandleAll(cfg, siteId, w, batch[..i + 1])
    requires Numbered(before.db) && QuietSample(cfg, before, batch[i])
    ensures SampleQueued(batch[i], before.db, after.db.rows)
  {
    OneMoreSample(cfg, siteId, w, batch, i);
    QuietSampleIsQueued(cfg, siteId, before, batch[i], after);
  }

  /** Whatever the readings around it do, the row of such a reading is in the table when the pass ends. */
  lemma EveryQuietSampleIsQueued(cfg: WatchConfig, siteId: string, w: Watch, batch: seq<Sample>, i: nat, before: Watch, end: Watch)
    requires w.memory.Some? && Numbered(w.db) && i < |batch|
    requires before == HandleAll(cfg, siteId, w, batch[..i]) && end == HandleAll(cfg, siteId, w, batch) && QuietSample(cfg, before, batch[i])
    ensures SampleQueued(batch[i], before.db, end.db.rows) && Keeps(w.db, before.db)
  {
    var after := HandleAll(cfg, siteId, w, batch[..i + 1]);
    RowsKeptUpTo(cfg, siteId, w, batch, i);
    RowsKeptUpTo(cfg, siteId, w, batch, i + 1);
    RowsKeptFrom(cfg, siteId, w, batch, i + 1);
    OneMoreQuietSample(cfg, siteId, w, batch, i, before, after);
    KeepingKeepsSample(batch[i], before.db, after.db, end.db);
  }

  /** And whatever the handling of any usable reading queued, its alarms' records too, is in the table when the pass ends. */
  lemma EveryHandledSampleStays(cfg: WatchConfig, siteId: string, w: Watch, batch: seq<Sample>, i: nat)
    requires w.memory.Some? && Numbered(w.db) && i < |batch| && batch[i].Sample?
    ensures var (before, Sample(r, event, now, writes)) := (HandleAll(cfg, siteId, w, batch[..i]), batch[i]);
      Keeps(Handle(cfg, siteId, before, r, event, now, writes).db, HandleAll(cfg, siteId, w, batch).db)
  {
    OneMoreSample(cfg, siteId, w, batch, i);
    RowsKeptUpTo(cfg, siteId, w, batch, i + 1);
    RowsKeptFrom(cfg, siteId, w, batch, i + 1);
  }
}
