/**
 What debounce promises in every run of the collector: conditions survive restarts,
 every alarm is debounced over the readings handled, and over every reading taken
 exactly when no clear was lost.
 */
module DebounceRuns {
  import opened Prelude
  import opened EdgeModel
  import opened EdgeTransactions
  import opened QueueLaws
  import opened Debounce

  // ---- What holds in every run ----

  /**
   While the collector runs, memory and the durable table agree, and an alarm remembered as opened has its
   unresolved incident.
   */
  lemma {:induction false} MemoryMirrorsTable(cfg: WatchConfig, steps: seq<WatchStep>)
    ensures var w := Run(cfg, steps);
      w.memory.Some? ==>
        && w.memory.value.Keys == w.db.debounce.Keys
        && (forall key | key in w.memory.value :: w.memory.value[key].activeSince == w.db.debounce[key])
        && (forall key | key in w.memory.value && w.memory.value[key].alarmed :: HasUnresolved(w.db.incidents, key.0, key.1))
  {
    RunKeepsInv(cfg, steps);
  }

  /** A crash at any point loses no condition: what the next process restores started when the table says it did. */
  lemma {:induction false} RestartKeepsConditions(cfg: WatchConfig, steps: seq<WatchStep>)
    ensures var w := Run(cfg, steps);
      var w' := Apply(cfg, Apply(cfg, w, CrashStep), RestoreStep);
      && w'.memory.Some?
      && w'.memory.value.Keys == w.db.debounce.Keys
      && (forall key | key in w.db.debounce :: w'.memory.value[key].activeSince == w.db.debounce[key])
      && (w.memory.Some? ==> w'.memory.value.Keys == w.memory.value.Keys)
  {
    RunKeepsInv(cfg, steps);
  }

  /** Every alarm rests on a condition tracked without a break for at least its debounce period, restarts included. */
  lemma {:induction false} AlarmsAreDebounced(cfg: WatchConfig, steps: seq<WatchStep>, j: nat)
    requires j < |Run(cfg, steps).log| && Run(cfg, steps).log[j].Raised?
    ensures var log := Run(cfg, steps).log;
      exists i: nat :: Tracked(log, log[j].key, i, j) && log[i].at + log[j].debounce <= log[j].at
  {
    RunKeepsInv(cfg, steps);
    var log := Run(cfg, steps).log;
    assert JustifiedAt(log, j);
    var i: nat :| RestsOn(log, i, j);
  }

  /** Every clearing reading taken in between had its clear written before note n. */
  ghost predicate ClearsWritten(log: seq<Note>, key: ConditionKey, i: nat, n: nat)
    requires n <= |log|
  {
    forall k | i < k < n && log[k].InactiveTaken? && log[k].key == key ::
      exists m | k < m < n :: log[m].Cleared? && log[m].key == key
  }

  /**
   When debounce holds over every reading taken, handled to its end or not: for every
   alarm of every run, no clearing reading lies between the start of its condition and
   the alarm exactly if no clear of the condition was lost in between, and exactly if
   every clearing reading in between had its clear written.
   */
  lemma {:induction false} DebouncedExactly(cfg: WatchConfig, steps: seq<WatchStep>, i: nat, j: nat)
    requires j < |Run(cfg, steps).log| && Run(cfg, steps).log[j].Raised?
    requires Tracked(Run(cfg, steps).log, Run(cfg, steps).log[j].key, i, j)
    ensures var log := Run(cfg, steps).log;
      var key := log[j].key;
      && log[i].at + log[j].debounce <= log[j].at
      && (!Taken(log, key, i, j) <==> !Lost(log, key, i, j))
      && (!Taken(log, key, i, j) <==> ClearsWritten(log, key, i, j))
  {
    RunKeepsInv(cfg, steps);
    var log := Run(cfg, steps).log;
    assert JustifiedAt(log, j);
    var h: nat :| RestsOn(log, h, j);
    TrackedUnique(log, log[j].key, h, i, j);
  }

  /** The steps that lose the clear of a tracked condition: a crash with the clear still in hand, and a delete that fails. */
  ghost predicate LosesClear(w: Watch, step: WatchStep, key: ConditionKey) {
    && key in w.db.debounce
    && ((step.CrashStep? && StillToClear(w.work, key))
        || (step.ClearStep? && Clearing(w) && key == KeyOf(w.work.reading, w.work.clears[0]) && !step.deleted))
  }

  function NewNotes(cfg: WatchConfig, w: Watch, step: WatchStep): seq<Note> {
    match step
    case ReadStep(r, _, now) => if w.memory.Some? && w.work.Resting? then TakenNotes(r, ClearedCodes(cfg, r), now) else []
    case CheckStep(saved) => if Checking(w) then Examine(w, saved).log[|w.log|..] else []
    case RaiseStep(disk) => if Raising(w) then Raise(cfg, w, disk).log[|w.log|..] else []
    case ClearStep(deleted, resolved) => if Clearing(w) then Clear(w, deleted, resolved).log[|w.log|..] else []
    case CrashStep => if w.work.Handling? then LostNotes(w.work.reading, w.work.clears, w.db.debounce, w.work.now) else []
    case _ => []
  }

  lemma NotesAreAppended(cfg: WatchConfig, w: Watch, step: WatchStep)
    ensures Apply(cfg, w, step).log == w.log + NewNotes(cfg, w, step)
  {
  }

  lemma ClearLoses(cfg: WatchConfig, w: Watch, deleted: bool, resolved: bool, key: ConditionKey)
    requires Clearing(w) && Mirror(w.db, w.memory.value)
    ensures HasLost(NewNotes(cfg, w, ClearStep(deleted, resolved)), key) <==>
      key in w.db.debounce && key == KeyOf(w.work.reading, w.work.clears[0]) && !deleted
  {
    var notes := NewNotes(cfg, w, ClearStep(deleted, resolved));
    assert |notes| == 1 && notes[0] == Clear(w, deleted, resolved).log[|w.log|];
  }

  lemma LossExactly(cfg: WatchConfig, w: Watch, step: WatchStep, key: ConditionKey)
    requires Inv(w)
    ensures HasLost(NewNotes(cfg, w, step), key) <==> LosesClear(w, step, key)
  {
    match step {
      case CrashStep =>
        if w.work.Handling? { LostNotesName(w.work.reading, w.work.clears, w.db.debounce, w.work.now, key); }
      case ClearStep(deleted, resolved) =>
        if Clearing(w) { ClearLoses(cfg, w, deleted, resolved, key); }
      case _ =>
    }
  }

  /** Exactly those steps write that a clear was lost. */
  lemma {:induction false} LossIsACrashOrAFailedDelete(cfg: WatchConfig, steps: seq<WatchStep>, step: WatchStep, key: ConditionKey)
    ensures var w := Run(cfg, steps);
      && Apply(cfg, w, step).log == w.log + NewNotes(cfg, w, step)
      && (HasLost(NewNotes(cfg, w, step), key) <==> LosesClear(w, step, key))
  {
    RunKeepsInv(cfg, steps);
    NotesAreAppended(cfg, Run(cfg, steps), step);
    LossExactly(cfg, Run(cfg, steps), step, key);
  }

  /** No step of the run loses a clear of the condition. */
  ghost predicate NothingLost(cfg: WatchConfig, steps: seq<WatchStep>, key: ConditionKey) {
    forall n | 0 <= n < |steps| :: !LosesClear(Run(cfg, steps[..n]), steps[n], key)
  }

  lemma {:induction false} NothingLostIsLogged(cfg: WatchConfig, steps: seq<WatchStep>, key: ConditionKey)
    requires NothingLost(cfg, steps, key)
    ensures !HasLost(Run(cfg, steps).log, key)
  {
    if steps != [] {
      var n := |steps| - 1;
      var before := steps[..n];
      forall m | 0 <= m < n ensures !LosesClear(Run(cfg, before[..m]), before[m], key) {
        assert before[..m] == steps[..m];
      }
      NothingLostIsLogged(cfg, before, key);
      LossIsACrashOrAFailedDelete(cfg, before, steps[n], key);
      NoLossAppends(Run(cfg, before).log, NewNotes(cfg, Run(cfg, before), steps[n]), key);
    }
  }

  lemma NoLossAppends(log: seq<Note>, notes: seq<Note>, key: ConditionKey)
    requires !HasLost(log, key) && !HasLost(notes, key)
    ensures !HasLost(log + notes, key)
  {
    var log' := log + notes;
    forall k | 0 <= k < |log'| ensures !(log'[k].ClearLost? && log'[k].key == key) {
      assert log'[k] == if k < |log| then log[k] else notes[k - |log|];
    }
  }

  /** Without such a step every alarm of the condition is debounced over every reading taken. */
  lemma {:induction false} UninterruptedAlarmsAreDebounced(cfg: WatchConfig, steps: seq<WatchStep>, i: nat, j: nat)
    requires j < |Run(cfg, steps).log| && Run(cfg, steps).log[j].Raised?
    requires Tracked(Run(cfg, steps).log, Run(cfg, steps).log[j].key, i, j)
    requires NothingLost(cfg, steps, Run(cfg, steps).log[j].key)
    ensures !Taken(Run(cfg, steps).log, Run(cfg, steps).log[j].key, i, j)
  {
    DebouncedExactly(cfg, steps, i, j);
    NothingLostIsLogged(cfg, steps, Run(cfg, steps).log[j].key);
  }

  lemma {:induction false} RunExtends(cfg: WatchConfig, steps: seq<WatchStep>, step: WatchStep)
    ensures Run(cfg, steps + [step]) == Apply(cfg, Run(cfg, steps), step)
  {
    assert (steps + [step])[..|steps|] == steps;
  }

  // ---- Two runs in which a clear is lost ----

  const WATCH := WatchConfig(Config(100_000_000, 1000, 80, 10, 0, 4096), 55.0, 30_000)
  const SPACE := Disk(1_000_000_000, 0)
  const EVENT := Event("inv-0101", "solar_inverter", "telemetry", "{}", PRIORITY_NORMAL, Some(1), Some(1), None, None)
  const INVERTER: ConditionKey := ("inv-0101", InverterFailure)
  const TAMPER: ConditionKey := ("inv-0101", TamperDetected)

  function InverterReading(failed: bool): Reading {
    Reading("inv-0101", "solar_inverter", 20.0, failed, false, false, None, 0)
  }

  lemma InverterChecks()
    ensures ActiveChecks(WATCH, InverterReading(true)) == [Check(InverterFailure, 30_000, None)]
    ensures ClearedCodes(WATCH, InverterReading(true)) == [TamperDetected]
    ensures ActiveChecks(WATCH, InverterReading(false)) == []
    ensures ClearedCodes(WATCH, InverterReading(false)) == [InverterFailure, TamperDetected]
  {
  }

  /** The inverter fails at 0 s. */
  function FailedAtZero(): seq<WatchStep> {
    [RestoreStep, ReadStep(InverterReading(true), EVENT, 0), CheckStep(true), ClearStep(true, true), RestStep]
  }

  /** It is read healthy at 10 s, and the agent crashes before the condition is deleted. */
  function HealthyThenCrash(): seq<WatchStep> {
    [ReadStep(InverterReading(false), EVENT, 10_000), CrashStep, RestoreStep]
  }

  /** It is read healthy at 10 s, and the delete fails. */
  function HealthyThenFailedDelete(): seq<WatchStep> {
    [ReadStep(InverterReading(false), EVENT, 10_000), ClearStep(false, true), ClearStep(true, true), RestStep]
  }

  /** It fails again at 30 s. */
  function FailedAgain(): seq<WatchStep> {
    [ReadStep(InverterReading(true), EVENT, 30_000), CheckStep(true), RaiseStep(SPACE)]
  }

  ghost function Continue(w: Watch, steps: seq<WatchStep>): Watch
    decreases |steps|
  {
    if steps == [] then w else Continue(Apply(WATCH, w, steps[0]), steps[1..])
  }

  lemma {:induction false} RunContinues(steps: seq<WatchStep>, more: seq<WatchStep>)
    ensures Run(WATCH, steps + more) == Continue(Run(WATCH, steps), more)
    decreases |more|
  {
    if more == [] {
      assert steps + more == steps;
    } else {
      RunExtends(WATCH, steps, more[0]);
      assert steps + more == steps + [more[0]] + more[1..];
      RunContinues(steps + [more[0]], more[1..]);
    }
  }

  function TrackedSinceZero(): EdgeDb {
    EMPTY_DB.(debounce := map[INVERTER := 0])
  }

  const HEALTHY := [InactiveTaken(INVERTER, 10_000), InactiveTaken(TAMPER, 10_000)]
  const AT_ZERO := [InactiveTaken(TAMPER, 0), Started(INVERTER, 0), Cleared(TAMPER, 0)]

  /** At rest, the condition tracked since zero, no incident and no record. */
  ghost predicate RestsAtZero(w: Watch, log: seq<Note>) {
    && w.db.debounce == map[INVERTER := 0] && w.db.incidents == map[] && w.db.rows == map[] && w.db.lastSequence == 0
    && w.memory == Some(map[INVERTER := Condition(0, false)])
    && w.work.Resting? && w.log == log
  }

  lemma ExamineFirst(w: Watch)
    requires w == INITIAL.(memory := Some(map[]))
    ensures var w' := Apply(WATCH, Apply(WATCH, w, ReadStep(InverterReading(true), EVENT, 0)), CheckStep(true));
      && w'.db == TrackedSinceZero() && w'.memory == Some(map[INVERTER := Condition(0, false)])
      && w'.work == Handling(InverterReading(true), EVENT, 0, [], [], NoAlarm, [TamperDetected])
      && w'.log == [InactiveTaken(TAMPER, 0), Started(INVERTER, 0)]
  {
    InverterChecks();
    assert TakenNotes(InverterReading(true), [TamperDetected], 0) == [InactiveTaken(TAMPER, 0)];
  }

  lemma ClearTamper(w: Watch, now: int, log: seq<Note>)
    requires w.db.debounce == map[INVERTER := 0] && w.db.incidents == map[] && w.db.rows == map[] && w.db.lastSequence == 0
    requires w.memory == Some(map[INVERTER := Condition(0, false)]) && w.log == log
    requires exists failed :: w.work == Handling(InverterReading(failed), EVENT, now, [], [], NoAlarm, [TamperDetected])
    ensures RestsAtZero(Apply(WATCH, Apply(WATCH, w, ClearStep(true, true)), RestStep), log + [Cleared(TAMPER, now)])
  {
    var w' := Apply(WATCH, w, ClearStep(true, true));
    assert w'.memory == Some(map[INVERTER := Condition(0, false)] - {TAMPER});
    assert map[INVERTER := Condition(0, false)] - {TAMPER} == map[INVERTER := Condition(0, false)];
    assert w'.db.incidents == map[];
  }

  lemma FailedAtZeroTracks()
    ensures RestsAtZero(Run(WATCH, FailedAtZero()), AT_ZERO)
  {
    var steps := FailedAtZero();
    RunContinues([], steps);
    assert [] + steps == steps;
    var restored := Apply(WATCH, INITIAL, steps[0]);
    assert Restored(EMPTY_DB) == map[];
    ExamineFirst(restored);
    var examined := Apply(WATCH, Apply(WATCH, restored, steps[1]), steps[2]);
    ClearTamper(examined, 0, [InactiveTaken(TAMPER, 0), Started(INVERTER, 0)]);
    assert Continue(INITIAL, steps) == Apply(WATCH, Apply(WATCH, examined, steps[3]), steps[4]) by {
      assert steps[1..] == [steps[1], steps[2], steps[3], steps[4]];
      Unroll(restored, steps[1], steps[2], [steps[3], steps[4]]);
      Unroll(examined, steps[3], steps[4], []);
    }
    assert AT_ZERO == [InactiveTaken(TAMPER, 0), Started(INVERTER, 0)] + [Cleared(TAMPER, 0)];
  }

  lemma Unroll(w: Watch, a: WatchStep, b: WatchStep, more: seq<WatchStep>)
    ensures Continue(w, [a, b] + more) == Continue(Apply(WATCH, Apply(WATCH, w, a), b), more)
  {
    assert ([a, b] + more)[1..] == [b] + more;
    assert ([b] + more)[1..] == more;
  }

  lemma TakeHealthy(w: Watch, log: seq<Note>)
    requires RestsAtZero(w, log)
    ensures var w' := Apply(WATCH, w, ReadStep(InverterReading(false), EVENT, 10_000));
      w' == w.(work := Handling(InverterReading(false), EVENT, 10_000, [], [], NoAlarm, [InverterFailure, TamperDetected]),
               log := log + HEALTHY)
  {
    InverterChecks();
    var codes := [InverterFailure, TamperDetected];
    assert codes[..1] == [InverterFailure] && codes[..1][..0] == [];
    assert TakenNotes(InverterReading(false), codes[..1], 10_000) == [InactiveTaken(INVERTER, 10_000)];
  }

  lemma LostInverter(debounce: map<ConditionKey, int>)
    requires debounce == map[INVERTER := 0]
    ensures LostNotes(InverterReading(false), [InverterFailure, TamperDetected], debounce, 10_000) == [ClearLost(INVERTER, 10_000)]
  {
    var codes := [InverterFailure, TamperDetected];
    assert codes[..1] == [InverterFailure] && codes[..1][..0] == [];
    assert LostNotes(InverterReading(false), codes[..1], debounce, 10_000) == [ClearLost(INVERTER, 10_000)];
  }

  lemma ReopenedAtRest(db: EdgeDb)
    requires db.incidents == map[] && db.rows == map[] && db.lastSequence == 0
    ensures var db' := Reopen(db); db'.debounce == db.debounce && db'.rows == map[] && db'.incidents == map[] && db'.lastSequence == 0
  {
    assert RecoverInterrupted(db).rows == map[];
    assert SuppressCovered(RecoverInterrupted(db)).rows == map[];
  }

  lemma CrashLosesClear(w: Watch, log: seq<Note>)
    requires RestsAtZero(w, log)
    ensures RestsAtZero(Continue(w, HealthyThenCrash()),
                        log + HEALTHY + [ClearLost(INVERTER, 10_000)])
  {
    var steps := HealthyThenCrash();
    TakeHealthy(w, log);
    LostInverter(w.db.debounce);
    ReopenedAtRest(w.db);
    var crashed := Apply(WATCH, Apply(WATCH, w, steps[0]), CrashStep);
    assert Restored(crashed.db) == map[INVERTER := Condition(0, false)];
    assert steps == [steps[0], steps[1]] + [RestoreStep];
    Unroll(w, steps[0], steps[1], [RestoreStep]);
    assert [RestoreStep][1..] == [];
  }

  lemma FailedDeleteLosesClear(w: Watch, log: seq<Note>)
    requires RestsAtZero(w, log)
    ensures RestsAtZero(Continue(w, HealthyThenFailedDelete()),
                        log + HEALTHY + [ClearLost(INVERTER, 10_000), Cleared(TAMPER, 10_000)])
  {
    var steps := HealthyThenFailedDelete();
    TakeHealthy(w, log);
    var failed := Apply(WATCH, Apply(WATCH, w, steps[0]), steps[1]);
    assert [InverterFailure, TamperDetected][1..] == [TamperDetected];
    assert failed.work == Handling(InverterReading(false), EVENT, 10_000, [], [], NoAlarm, [TamperDetected]);
    ClearTamper(failed, 10_000, log + HEALTHY + [ClearLost(INVERTER, 10_000)]);
    assert [ClearLost(INVERTER, 10_000)] + [Cleared(TAMPER, 10_000)] == [ClearLost(INVERTER, 10_000), Cleared(TAMPER, 10_000)];
    assert log + HEALTHY + [ClearLost(INVERTER, 10_000)] + [Cleared(TAMPER, 10_000)]
        == log + HEALTHY + [ClearLost(INVERTER, 10_000), Cleared(TAMPER, 10_000)];
    assert steps == [steps[0], steps[1]] + [steps[2], steps[3]];
    Unroll(w, steps[0], steps[1], [steps[2], steps[3]]);
    Unroll(failed, steps[2], steps[3], []);
    assert [steps[2], steps[3]] + [] == [steps[2], steps[3]];
  }

  lemma SpaceForAlarm(db: EdgeDb)
    requires db.rows == map[] && db.lastSequence == 0
    ensures Refusal(WATCH.queue, db, CriticalEvent(EVENT, Check(InverterFailure, 30_000, None)), SPACE).None?
  {
    assert ActiveBytes(db) == 0;
  }

  lemma FailedAgainRaises(w: Watch, log: seq<Note>)
    requires RestsAtZero(w, log)
    ensures Continue(w, FailedAgain()).log == log + [InactiveTaken(TAMPER, 30_000)] + [Raised(INVERTER, 30_000, 30_000)]
  {
    var steps := FailedAgain();
    ExaminedAgain(w, log);
    var examined := Apply(WATCH, Apply(WATCH, w, steps[0]), steps[1]);
    SpaceForAlarm(examined.db);
    assert steps == [steps[0], steps[1]] + [steps[2]];
    Unroll(w, steps[0], steps[1], [steps[2]]);
    assert [steps[2]][1..] == [];
  }

  lemma ExaminedAgain(w: Watch, log: seq<Note>)
    requires RestsAtZero(w, log)
    ensures var examined := Apply(WATCH, Apply(WATCH, w, FailedAgain()[0]), FailedAgain()[1]);
      && examined.db == w.db && examined.memory.Some? && examined.log == log + [InactiveTaken(TAMPER, 30_000)]
      && examined.work == Handling(InverterReading(true), EVENT, 30_000, [], [Check(InverterFailure, 30_000, None)], NoAlarm, [TamperDetected])
  {
    InverterChecks();
    assert TakenNotes(InverterReading(true), [TamperDetected], 30_000) == [InactiveTaken(TAMPER, 30_000)];
  }

  /** An alarm raised for a condition that a reading taken since its start had cleared. */
  ghost predicate RaisedDespiteHealthy(log: seq<Note>) {
    exists i: nat, j: nat :: j < |log| && log[j].Raised? && Tracked(log, log[j].key, i, j) && Taken(log, log[j].key, i, j)
  }

  lemma LostClearRaises(log: seq<Note>, between: seq<Note>)
    requires log == AT_ZERO + HEALTHY + between + [InactiveTaken(TAMPER, 30_000)] + [Raised(INVERTER, 30_000, 30_000)]
    requires forall k | 0 <= k < |between| :: (between[k].Started? || between[k].Cleared?) ==> between[k].key != INVERTER
    ensures RaisedDespiteHealthy(log)
  {
    var j := |log| - 1;
    assert log[1] == Started(INVERTER, 0) && log[2] == Cleared(TAMPER, 0);
    assert log[3] == InactiveTaken(INVERTER, 10_000) && log[4] == InactiveTaken(TAMPER, 10_000);
    assert log[j] == Raised(INVERTER, 30_000, 30_000) && log[j - 1] == InactiveTaken(TAMPER, 30_000);
    assert forall k | 5 <= k < j - 1 :: log[k] == between[k - 5];
    assert Tracked(log, INVERTER, 1, j) && Taken(log, INVERTER, 1, j);
  }

  lemma FailingAgainRaises(w: Watch, between: seq<Note>)
    requires RestsAtZero(w, AT_ZERO + HEALTHY + between)
    requires forall k | 0 <= k < |between| :: (between[k].Started? || between[k].Cleared?) ==> between[k].key != INVERTER
    ensures RaisedDespiteHealthy(Continue(w, FailedAgain()).log)
  {
    FailedAgainRaises(w, AT_ZERO + HEALTHY + between);
    LostClearRaises(Continue(w, FailedAgain()).log, between);
  }

  /** So debounce over every reading fails: a 30-second alarm is raised although the device was read healthy in between. */
  lemma InterruptedClearIsNotDebounced()
    ensures RaisedDespiteHealthy(Run(WATCH, FailedAtZero() + HealthyThenCrash() + FailedAgain()).log)
  {
    FailedAtZeroTracks();
    RunContinues(FailedAtZero(), HealthyThenCrash());
    CrashLosesClear(Run(WATCH, FailedAtZero()), AT_ZERO);
    RunContinues(FailedAtZero() + HealthyThenCrash(), FailedAgain());
    FailingAgainRaises(Run(WATCH, FailedAtZero() + HealthyThenCrash()), [ClearLost(INVERTER, 10_000)]);
  }

  /** It fails without a crash as well, when the store refuses the delete. */
  lemma FailedDeleteIsNotDebounced()
    ensures RaisedDespiteHealthy(Run(WATCH, FailedAtZero() + HealthyThenFailedDelete() + FailedAgain()).log)
  {
    FailedAtZeroTracks();
    RunContinues(FailedAtZero(), HealthyThenFailedDelete());
    FailedDeleteLosesClear(Run(WATCH, FailedAtZero()), AT_ZERO);
    RunContinues(FailedAtZero() + HealthyThenFailedDelete(), FailedAgain());
    FailingAgainRaises(Run(WATCH, FailedAtZero() + HealthyThenFailedDelete()), [ClearLost(INVERTER, 10_000), Cleared(TAMPER, 10_000)]);
  }

  // ---- The other transactions stay inside the frame ----

  lemma RejectionsAreFrames(db: EdgeDb, s: nat, at: int, cause: string, rejected: bool)
    ensures WatchFrame(db, Abandon(db, s, cause).0)
    ensures WatchFrame(db, MarkFailed(db, s, at, cause, rejected).0)
  {
  }

  lemma UploadFailureIsFrame(db: EdgeDb, s: nat)
    ensures WatchFrame(db, RecordUploadFailure(db, s))
  {
    assert RecordUploadFailure(db, s).incidents.Keys == db.incidents.Keys;
  }

  lemma ReservationIsFrame(db: EdgeDb, s: nat, at: int, retryAfter: int)
    ensures WatchFrame(db, ReserveAttempt(db, s, at, retryAfter).0)
  {
    assert ReserveAttempt(db, s, at, retryAfter).0.incidents.Keys == db.incidents.Keys;
  }

  lemma RecordingIsFrame(db: EdgeDb, s: nat, at: int, succeeded: bool, next: Option<int>)
    ensures WatchFrame(db, RecordAttempt(db, s, at, succeeded, next).0)
  {
    assert RecordAttempt(db, s, at, succeeded, next).0.incidents.Keys == db.incidents.Keys;
  }

  /** Whatever the store commits beside debounce rows, incidents and a restart is a StoreStep of the machine. */
  lemma OtherTransactionsAreFrames(cfg: Config, db: EdgeDb, tx: Transaction)
    requires !tx.OpenTx? && !tx.ResolveTx? && !tx.SaveTx? && !tx.ForgetTx? && !tx.ReopenTx?
    ensures WatchFrame(db, Commit(cfg, db, tx))
  {
    match tx {
      case AbandonTx(s, cause) => RejectionsAreFrames(db, s, 0, cause, false);
      case FailTx(s, retryAt, cause, rejected) => RejectionsAreFrames(db, s, retryAt, cause, rejected);
      case UploadFailureTx(s) => UploadFailureIsFrame(db, s);
      case ReserveTx(s, at, retryAfter) => ReservationIsFrame(db, s, at, retryAfter);
      case RecordTx(s, at, succeeded, next) => RecordingIsFrame(db, s, at, succeeded, next);
      case _ =>
    }
  }
}
