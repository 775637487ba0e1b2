/**
 The SMS budget for critical incidents, as a machine in which every attempt is
 reserved, sent and recorded in three separate steps, with crashes and every
 other store transaction allowed in between.
 */
module SmsLimits {
  import opened Prelude
  import opened EdgeModel
  import opened EdgeTransactions
  import opened QueueLaws
  import opened Text
  import SmsMessages

  const MAX_INCIDENT_ATTEMPTS := 3
  const INCIDENT_ATTEMPT_WINDOW := 900_000

  function MinimumRetryInterval(maxAttempts: int): int {
    if maxAttempts <= 1 then 0 else INCIDENT_ATTEMPT_WINDOW / (MAX_INCIDENT_ATTEMPTS - 1)
  }

  datatype SmsConfig = SmsConfig(
    failureThreshold: int,
    offlineAfter: int,
    maxAttempts: int,
    hourlyLimit: int,
    dailyLimit: int,
    retryInterval: int)
  {
    /** The coordinator's constructor: attempts and retry interval are forced into range. */
    function Clamped(): SmsConfig {
      var attempts := if maxAttempts <= 0 || maxAttempts > MAX_INCIDENT_ATTEMPTS then MAX_INCIDENT_ATTEMPTS else maxAttempts;
      var minimum := MinimumRetryInterval(attempts);
      this.(maxAttempts := attempts, retryInterval := if retryInterval < minimum then minimum else retryInterval)
    }

    predicate InRange() {
      1 <= maxAttempts <= MAX_INCIDENT_ATTEMPTS && retryInterval >= MinimumRetryInterval(maxAttempts)
    }
  }

  lemma ClampedInRange(cfg: SmsConfig)
    ensures cfg.Clamped().InRange()
    ensures cfg.InRange() ==> cfg.Clamped() == cfg
  {
  }

  /** The message sent for a candidate. */
  function CandidateEvent(siteId: string, c: Candidate): SmsMessages.FallbackEvent
    requires c.sequence < UINT64_LIMIT && -INT64_LIMIT <= c.incident.eventAt < INT64_LIMIT
  {
    SmsMessages.FallbackEvent(siteId, c.incident.assetId, c.sequence, c.incident.code, c.incident.temperature, Some(c.incident.eventAt))
  }

  predicate Formats(siteId: string, c: Candidate) {
    && c.sequence < UINT64_LIMIT && -INT64_LIMIT <= c.incident.eventAt < INT64_LIMIT
    && SmsMessages.Format(CandidateEvent(siteId, c)).Ok?
  }

  /** Whether a candidate may be attempted now, given the attempts this poll has already made. */
  predicate MaySend(cfg: SmsConfig, c: Candidate, hour: int, day: int, now: int) {
    && c.attempts < cfg.maxAttempts
    && c.lastHour + hour < cfg.hourlyLimit
    && c.lastDay + day < cfg.dailyLimit
    && (c.incident.nextSmsAttempt.Some? ==> c.incident.nextSmsAttempt.value <= now)
    && (|| c.incident.uploadFailures >= cfg.failureThreshold
        || now - (if c.lastUploadSuccess.Some? then c.lastUploadSuccess.value else c.incident.openedAt) >= cfg.offlineAfter)
  }

  /** Candidates in the order the query returns them: oldest incident first, ties by sequence. */
  predicate Before(a: Candidate, b: Candidate) {
    a.incident.openedAt < b.incident.openedAt || (a.incident.openedAt == b.incident.openedAt && a.sequence < b.sequence)
  }

  ghost predicate CandidateList(db: EdgeDb, now: int, list: seq<Candidate>) {
    && (forall i, j | 0 <= i < j < |list| :: Before(list[i], list[j]))
    && (forall i | 0 <= i < |list| :: list[i].sequence in db.incidents && Pending(db.incidents[list[i].sequence])
          && list[i] == CandidateOf(db, list[i].sequence, now))
    && (forall s | s in db.incidents && Pending(db.incidents[s]) :: CandidateOf(db, s, now) in list)
  }

  // ---- The machine ----

  datatype Poll =
    | Off
    | Choosing(now: int, rest: seq<Candidate>, hour: nat, day: nat)
    | Sending(now: int, rest: seq<Candidate>, hour: nat, day: nat, key: nat, sent: bool)

  /** sent lists, by position in the attempt table, every message the modem was asked to transmit. */
  datatype Phone = Phone(db: EdgeDb, poll: Poll, sent: seq<nat>)

  const INITIAL := Phone(EMPTY_DB, Off, [])

  datatype SmsStep =
    | PollStep(now: int, candidates: seq<Candidate>)
    | ChooseStep(written: bool)
    | SendStep
    | FinishStep(succeeded: bool, written: bool)
    | CrashStep
    | StoreStep(to: EdgeDb)

  /** Every other transaction: attempts stay, known incidents keep their SMS columns, new incidents start blank. */
  ghost predicate SmsFrame(db: EdgeDb, db': EdgeDb) {
    && db'.attempts == db.attempts
    && (forall s | s in db.incidents :: s in db'.incidents
          && db'.incidents[s].smsAttempts == db.incidents[s].smsAttempts
          && db'.incidents[s].nextSmsAttempt == db.incidents[s].nextSmsAttempt)
    && (forall s | s in db'.incidents && s !in db.incidents ::
          db'.incidents[s].smsAttempts == 0 && db'.incidents[s].nextSmsAttempt.None?)
  }

  function Choose(cfg: SmsConfig, siteId: string, p: Phone, written: bool): Phone
    requires p.poll.Choosing? && p.poll.rest != []
  {
    var Choosing(now, rest, hour, day) := p.poll;
    var c := rest[0];
    var (db', reserved) := ReserveAttempt(p.db, c.sequence, now, cfg.retryInterval);
    if MaySend(cfg, c, hour, day, now) && Formats(siteId, c) && written && reserved
    then p.(db := db', poll := Sending(now, rest[1..], hour + 1, day + 1, c.sequence, false))
    else p.(poll := Choosing(now, rest[1..], hour, day))
  }

  function Recorded(cfg: SmsConfig, db: EdgeDb, key: nat, now: int, succeeded: bool): EdgeDb {
    RecordAttempt(db, key, now, succeeded, if succeeded then None else Some(now + cfg.retryInterval)).0
  }

  /** Recording the outcome; a failed send also asks for the next attempt. */
  function Finish(cfg: SmsConfig, p: Phone, succeeded: bool, written: bool): Phone
    requires p.poll.Sending?
  {
    var Sending(now, rest, hour, day, key, _) := p.poll;
    p.(db := if written then Recorded(cfg, p.db, key, now, succeeded) else p.db,
       poll := Choosing(now, rest, hour, day))
  }

  ghost function Apply(cfg: SmsConfig, siteId: string, p: Phone, step: SmsStep): Phone {
    match step
    case PollStep(now, candidates) =>
      if CandidateList(p.db, now, candidates) then p.(poll := Choosing(now, candidates, 0, 0)) else p
    case ChooseStep(written) =>
      if p.poll.Choosing? && p.poll.rest != [] then Choose(cfg, siteId, p, written) else p
    case SendStep =>
      if p.poll.Sending? && !p.poll.sent && p.db.attempts != []
      then p.(poll := p.poll.(sent := true), sent := p.sent + [|p.db.attempts| - 1]) else p
    case FinishStep(succeeded, written) =>
      if p.poll.Sending? && p.poll.sent then Finish(cfg, p, succeeded, written) else p
    case CrashStep => p.(db := Reopen(p.db), poll := Off)
    case StoreStep(to) => if SmsFrame(p.db, to) then p.(db := to) else p
  }

  ghost function Run(cfg: SmsConfig, siteId: string, steps: seq<SmsStep>): Phone {
    if steps == [] then INITIAL
    else Apply(cfg, siteId, Run(cfg, siteId, steps[..|steps| - 1]), steps[|steps| - 1])
  }

  // ---- The invariant ----

  /** When each attempt was made, fewer than limit attempts lay in the span before it. */
  ghost predicate Limited(attempts: seq<Attempt>, span: int, limit: int) {
    forall i | 0 <= i < |attempts| :: LimitedAt(attempts, i, span, limit)
  }

  predicate LimitedAt(attempts: seq<Attempt>, i: nat, span: int, limit: int)
    requires i < |attempts|
  {
    CountSince(attempts[..i], attempts[i].at - span) < limit
  }

  ghost predicate Spaced(attempts: seq<Attempt>, gap: int) {
    forall i, j | 0 <= i < j < |attempts| && attempts[i].key == attempts[j].key :: attempts[j].at >= attempts[i].at + gap
  }

  /** The incident columns agree with the attempt table. */
  ghost predicate Accounted(cfg: SmsConfig, attempts: seq<Attempt>, incidents: map<nat, Incident>) {
    && (forall i | 0 <= i < |attempts| :: attempts[i].key in incidents
          && incidents[attempts[i].key].nextSmsAttempt.Some?
          && incidents[attempts[i].key].nextSmsAttempt.value >= attempts[i].at + cfg.retryInterval)
    && (forall s | s in incidents :: incidents[s].smsAttempts == OwnCount(attempts, s) <= cfg.maxAttempts)
  }

  ghost predicate Ledger(cfg: SmsConfig, db: EdgeDb) {
    && Limited(db.attempts, HOUR, cfg.hourlyLimit)
    && Limited(db.attempts, DAY, cfg.dailyLimit)
    && Spaced(db.attempts, cfg.retryInterval)
    && Accounted(cfg, db.attempts, db.incidents)
  }

  /** A candidate not considered yet still describes the database, up to the attempts this poll has made. */
  ghost predicate UpToDate(db: EdgeDb, c: Candidate, now: int, hour: int, day: int) {
    && c.sequence in db.incidents
    && c.attempts == OwnCount(db.attempts, c.sequence)
    && c.incident.nextSmsAttempt == db.incidents[c.sequence].nextSmsAttempt
    && c.lastHour + hour == CountSince(db.attempts, now - HOUR)
    && c.lastDay + day == CountSince(db.attempts, now - DAY)
  }

  ghost predicate DistinctKeys(list: seq<Candidate>) {
    forall i, j | 0 <= i < j < |list| :: list[i].sequence != list[j].sequence
  }

  ghost predicate RestUpToDate(db: EdgeDb, rest: seq<Candidate>, now: int, hour: int, day: int) {
    DistinctKeys(rest) && forall i | 0 <= i < |rest| :: UpToDate(db, rest[i], now, hour, day)
  }

  ghost predicate PollKept(db: EdgeDb, poll: Poll, sent: seq<nat>) {
    match poll
    case Off => true
    case Choosing(now, rest, hour, day) => RestUpToDate(db, rest, now, hour, day)
    case Sending(now, rest, hour, day, key, done) =>
      && RestUpToDate(db, rest, now, hour, day)
      && (forall i | 0 <= i < |rest| :: rest[i].sequence != key)
      && db.attempts != []
      && db.attempts[|db.attempts| - 1].key == key && db.attempts[|db.attempts| - 1].at == now
      && (!done ==> forall i | 0 <= i < |sent| :: sent[i] < |db.attempts| - 1)
  }

  /** Each transmission uses up its own reservation. */
  ghost predicate SentReserved(attempts: seq<Attempt>, sent: seq<nat>) {
    && (forall i | 0 <= i < |sent| :: sent[i] < |attempts|)
    && (forall i, j | 0 <= i < j < |sent| :: sent[i] < sent[j])
  }

  ghost predicate Inv(cfg: SmsConfig, p: Phone) {
    Ledger(cfg, p.db) && PollKept(p.db, p.poll, p.sent) && SentReserved(p.db.attempts, p.sent)
  }

  // ---- Counting ----

  ghost predicate SameAttempts(a: seq<Attempt>, b: seq<Attempt>) {
    |a| == |b| && forall i | 0 <= i < |a| :: a[i].key == b[i].key && a[i].at == b[i].at
  }

  lemma {:induction false} SameCounts(a: seq<Attempt>, b: seq<Attempt>, since: int, key: nat)
    requires SameAttempts(a, b)
    ensures CountSince(a, since) == CountSince(b, since) && OwnCount(a, key) == OwnCount(b, key)
  {
    if a != [] {
      SameCounts(a[..|a| - 1], b[..|b| - 1], since, key);
    }
  }

  lemma CountsAfterReserve(attempts: seq<Attempt>, a: Attempt, since: int, key: nat)
    ensures CountSince(attempts + [a], since) == CountSince(attempts, since) + (if a.at >= since then 1 else 0)
    ensures OwnCount(attempts + [a], key) == OwnCount(attempts, key) + (if a.key == key then 1 else 0)
  {
    assert (attempts + [a])[..|attempts|] == attempts;
  }

  lemma {:induction false} NoAttempts(attempts: seq<Attempt>, key: nat)
    requires forall i | 0 <= i < |attempts| :: attempts[i].key != key
    ensures OwnCount(attempts, key) == 0
  {
    if attempts != [] {
      NoAttempts(attempts[..|attempts| - 1], key);
    }
  }

  lemma ReserveKeepsLimited(attempts: seq<Attempt>, a: Attempt, span: int, limit: int)
    requires Limited(attempts, span, limit) && CountSince(attempts, a.at - span) < limit
    ensures Limited(attempts + [a], span, limit)
  {
    var after := attempts + [a];
    forall i | 0 <= i < |after| ensures LimitedAt(after, i, span, limit) {
      if i < |attempts| {
        assert LimitedAt(attempts, i, span, limit);
        assert after[..i] == attempts[..i];
      } else {
        assert after[..i] == attempts;
      }
    }
  }

  lemma SameKeepsLimited(a: seq<Attempt>, b: seq<Attempt>, span: int, limit: int)
    requires SameAttempts(a, b) && Limited(a, span, limit)
    ensures Limited(b, span, limit)
  {
    forall i | 0 <= i < |b| ensures LimitedAt(b, i, span, limit) {
      assert LimitedAt(a, i, span, limit);
      SameCounts(a[..i], b[..i], b[i].at - span, 0);
    }
  }

  // ---- Each step keeps the invariant ----

  lemma StoreStepKeepsInv(cfg: SmsConfig, p: Phone, to: EdgeDb)
    requires Inv(cfg, p) && SmsFrame(p.db, to) && cfg.InRange()
    ensures Inv(cfg, p.(db := to))
  {
    forall s | s in to.incidents ensures to.incidents[s].smsAttempts == OwnCount(to.attempts, s) <= cfg.maxAttempts {
      if s !in p.db.incidents {
        NoAttempts(p.db.attempts, s);
      }
    }
  }

  lemma ListIsUpToDate(db: EdgeDb, now: int, list: seq<Candidate>)
    requires CandidateList(db, now, list)
    ensures RestUpToDate(db, list, now, 0, 0)
  {
    forall i, j | 0 <= i < j < |list| ensures list[i].sequence != list[j].sequence {
      assert Before(list[i], list[j]);
    }
  }

  lemma ReserveKeepsLedger(cfg: SmsConfig, db: EdgeDb, c: Candidate, now: int, hour: nat, day: nat)
    requires Ledger(cfg, db) && UpToDate(db, c, now, hour, day) && MaySend(cfg, c, hour, day, now) && cfg.InRange()
    ensures Ledger(cfg, ReserveAttempt(db, c.sequence, now, cfg.retryInterval).0)
  {
    var (db', ok) := ReserveAttempt(db, c.sequence, now, cfg.retryInterval);
    if ok {
      var a := Attempt(c.sequence, now, None);
      ReserveKeepsLimited(db.attempts, a, HOUR, cfg.hourlyLimit);
      ReserveKeepsLimited(db.attempts, a, DAY, cfg.dailyLimit);
      ReserveKeepsAccounted(cfg, db, c.sequence, now);
    }
  }

  lemma ReserveKeepsSpaced(attempts: seq<Attempt>, incidents: map<nat, Incident>, cfg: SmsConfig, key: nat, now: int)
    requires Accounted(cfg, attempts, incidents) && Spaced(attempts, cfg.retryInterval)
    requires key in incidents && (incidents[key].nextSmsAttempt.Some? ==> incidents[key].nextSmsAttempt.value <= now)
    ensures Spaced(attempts + [Attempt(key, now, None)], cfg.retryInterval)
  {
  }

  lemma ReserveKeepsNext(cfg: SmsConfig, db: EdgeDb, key: nat, now: int, i: nat)
    requires Accounted(cfg, db.attempts, db.incidents) && i <= |db.attempts|
    requires key in db.incidents && !Reserved(db.attempts, key, now)
    ensures var db' := ReserveAttempt(db, key, now, cfg.retryInterval).0;
      && db'.attempts == db.attempts + [Attempt(key, now, None)]
      && db'.attempts[i].key in db'.incidents
      && db'.incidents[db'.attempts[i].key].nextSmsAttempt.Some?
      && db'.incidents[db'.attempts[i].key].nextSmsAttempt.value >= db'.attempts[i].at + cfg.retryInterval
  {
    if i < |db.attempts| {
      assert (db.attempts + [Attempt(key, now, None)])[i] == db.attempts[i];
    }
  }

  lemma ReserveKeepsAccounted(cfg: SmsConfig, db: EdgeDb, key: nat, now: int)
    requires Accounted(cfg, db.attempts, db.incidents) && Spaced(db.attempts, cfg.retryInterval) && cfg.InRange()
    requires key in db.incidents && !Reserved(db.attempts, key, now) && OwnCount(db.attempts, key) < cfg.maxAttempts
    requires db.incidents[key].nextSmsAttempt.Some? ==> db.incidents[key].nextSmsAttempt.value <= now
    ensures var db' := ReserveAttempt(db, key, now, cfg.retryInterval).0;
      Accounted(cfg, db'.attempts, db'.incidents) && Spaced(db'.attempts, cfg.retryInterval)
  {
    var db' := ReserveAttempt(db, key, now, cfg.retryInterval).0;
    ReserveKeepsSpaced(db.attempts, db.incidents, cfg, key, now);
    forall i | 0 <= i < |db'.attempts|
      ensures db'.attempts[i].key in db'.incidents
        && db'.incidents[db'.attempts[i].key].nextSmsAttempt.Some?
        && db'.incidents[db'.attempts[i].key].nextSmsAttempt.value >= db'.attempts[i].at + cfg.retryInterval
    {
      ReserveKeepsNext(cfg, db, key, now, i);
    }
    forall s | s in db'.incidents ensures db'.incidents[s].smsAttempts == OwnCount(db'.attempts, s) <= cfg.maxAttempts {
      CountsAfterReserve(db.attempts, Attempt(key, now, None), 0, s);
    }
  }

  lemma ReserveKeepsRest(cfg: SmsConfig, db: EdgeDb, key: nat, rest: seq<Candidate>, now: int, hour: nat, day: nat)
    requires RestUpToDate(db, rest, now, hour, day) && ReserveAttempt(db, key, now, cfg.retryInterval).1
    requires forall i | 0 <= i < |rest| :: rest[i].sequence != key
    ensures RestUpToDate(ReserveAttempt(db, key, now, cfg.retryInterval).0, rest, now, hour + 1, day + 1)
  {
    var db' := ReserveAttempt(db, key, now, cfg.retryInterval).0;
    forall i | 0 <= i < |rest| ensures UpToDate(db', rest[i], now, hour + 1, day + 1) {
      assert UpToDate(db, rest[i], now, hour, day);
      CountsAfterReserve(db.attempts, Attempt(key, now, None), now - HOUR, rest[i].sequence);
      CountsAfterReserve(db.attempts, Attempt(key, now, None), now - DAY, rest[i].sequence);
    }
  }

  lemma ChooseStepKeepsInv(cfg: SmsConfig, siteId: string, p: Phone, written: bool)
    requires Inv(cfg, p) && cfg.InRange() && p.poll.Choosing? && p.poll.rest != []
    ensures Inv(cfg, Choose(cfg, siteId, p, written))
  {
    var Choosing(now, rest, hour, day) := p.poll;
    if Choose(cfg, siteId, p, written).poll.Sending? {
      ReservingKeepsInv(cfg, p, now, rest, hour, day);
    } else {
      SkippingKeepsInv(cfg, p, now, rest, hour, day);
    }
  }

  lemma SkippingKeepsInv(cfg: SmsConfig, p: Phone, now: int, rest: seq<Candidate>, hour: nat, day: nat)
    requires Inv(cfg, p) && p.poll == Choosing(now, rest, hour, day) && rest != []
    ensures Inv(cfg, p.(poll := Choosing(now, rest[1..], hour, day)))
  {
    assert RestUpToDate(p.db, rest[1..], now, hour, day);
  }

  /** A candidate that is chosen: its reservation, with the rest of the list still up to date. */
  lemma ReservingKeepsInv(cfg: SmsConfig, p: Phone, now: int, rest: seq<Candidate>, hour: nat, day: nat)
    requires Inv(cfg, p) && cfg.InRange() && p.poll == Choosing(now, rest, hour, day) && rest != []
    requires MaySend(cfg, rest[0], hour, day, now) && ReserveAttempt(p.db, rest[0].sequence, now, cfg.retryInterval).1
    ensures Inv(cfg, p.(db := ReserveAttempt(p.db, rest[0].sequence, now, cfg.retryInterval).0,
                        poll := Sending(now, rest[1..], hour + 1, day + 1, rest[0].sequence, false)))
  {
    assert UpToDate(p.db, rest[0], now, hour, day);
    assert RestUpToDate(p.db, rest[1..], now, hour, day);
    ReserveKeepsLedger(cfg, p.db, rest[0], now, hour, day);
    ReserveKeepsRest(cfg, p.db, rest[0].sequence, rest[1..], now, hour, day);
  }

  lemma RecordKeepsLedger(cfg: SmsConfig, db: EdgeDb, key: nat, now: int, succeeded: bool)
    requires Ledger(cfg, db) && cfg.InRange()
    requires db.attempts != [] && db.attempts[|db.attempts| - 1].key == key && db.attempts[|db.attempts| - 1].at == now
    ensures var db' := Recorded(cfg, db, key, now, succeeded);
      Ledger(cfg, db') && SameAttempts(db.attempts, db'.attempts)
  {
    var db' := Recorded(cfg, db, key, now, succeeded);
    assert SameAttempts(db.attempts, db'.attempts);
    SameKeepsLimited(db.attempts, db'.attempts, HOUR, cfg.hourlyLimit);
    SameKeepsLimited(db.attempts, db'.attempts, DAY, cfg.dailyLimit);
    forall s | s in db'.incidents ensures db'.incidents[s].smsAttempts == OwnCount(db'.attempts, s) <= cfg.maxAttempts {
      SameCounts(db.attempts, db'.attempts, 0, s);
    }
  }

  lemma RecordKeepsRest(cfg: SmsConfig, db: EdgeDb, key: nat, now: int, succeeded: bool, rest: seq<Candidate>, hour: nat, day: nat)
    requires RestUpToDate(db, rest, now, hour, day)
    requires forall i | 0 <= i < |rest| :: rest[i].sequence != key
    ensures RestUpToDate(Recorded(cfg, db, key, now, succeeded), rest, now, hour, day)
  {
    var db' := Recorded(cfg, db, key, now, succeeded);
    forall i | 0 <= i < |rest| ensures UpToDate(db', rest[i], now, hour, day) {
      assert UpToDate(db, rest[i], now, hour, day);
      SameCounts(db.attempts, db'.attempts, now - HOUR, rest[i].sequence);
      SameCounts(db.attempts, db'.attempts, now - DAY, rest[i].sequence);
    }
  }

  lemma FinishStepKeepsInv(cfg: SmsConfig, p: Phone, succeeded: bool, written: bool)
    requires Inv(cfg, p) && cfg.InRange() && p.poll.Sending?
    ensures Inv(cfg, Finish(cfg, p, succeeded, written))
  {
    if written {
      var Sending(now, rest, hour, day, key, _) := p.poll;
      RecordKeepsLedger(cfg, p.db, key, now, succeeded);
      RecordKeepsRest(cfg, p.db, key, now, succeeded, rest, hour, day);
    }
  }

  lemma ReopenIsFrame(db: EdgeDb)
    ensures SmsFrame(db, Reopen(db))
  {
    var suppressed := SuppressCovered(RecoverInterrupted(db));
    RebuildGrows(suppressed.rows, suppressed.incidents, suppressed.lastSequence);
  }

  lemma StepKeepsInv(cfg: SmsConfig, siteId: string, p: Phone, step: SmsStep)
    requires Inv(cfg, p) && cfg.InRange()
    ensures Inv(cfg, Apply(cfg, siteId, p, step))
  {
    match step {
      case PollStep(now, candidates) =>
        if CandidateList(p.db, now, candidates) { ListIsUpToDate(p.db, now, candidates); }
      case ChooseStep(written) =>
        if p.poll.Choosing? && p.poll.rest != [] { ChooseStepKeepsInv(cfg, siteId, p, written); }
      case SendStep =>
      case FinishStep(succeeded, written) =>
        if p.poll.Sending? && p.poll.sent { FinishStepKeepsInv(cfg, p, succeeded, written); }
      case CrashStep =>
        ReopenIsFrame(p.db);
        StoreStepKeepsInv(cfg, p, Reopen(p.db));
      case StoreStep(to) => if SmsFrame(p.db, to) { StoreStepKeepsInv(cfg, p, to); }
    }
  }

  lemma {:induction false} RunKeepsInv(cfg: SmsConfig, siteId: string, steps: seq<SmsStep>)
    requires cfg.InRange()
    ensures Inv(cfg, Run(cfg, siteId, steps))
  {
    if steps != [] {
      RunKeepsInv(cfg, siteId, steps[..|steps| - 1]);
      StepKeepsInv(cfg, siteId, Run(cfg, siteId, steps[..|steps| - 1]), steps[|steps| - 1]);
    }
  }

  // ---- Limits over every window of every run ----

  /** Attempts in the closed window from lo to hi. */
  function CountIn(attempts: seq<Attempt>, lo: int, hi: int): nat {
    if attempts == [] then 0
    else CountIn(attempts[..|attempts| - 1], lo, hi) + (if lo <= attempts[|attempts| - 1].at <= hi then 1 else 0)
  }

  /** Transmissions in the closed window, dated by their attempts. */
  function SentIn(attempts: seq<Attempt>, sent: seq<nat>, lo: int, hi: int): nat
    requires forall i | 0 <= i < |sent| :: sent[i] < |attempts|
  {
    if sent == [] then 0
    else SentIn(attempts, sent[..|sent| - 1], lo, hi) + (if lo <= attempts[sent[|sent| - 1]].at <= hi then 1 else 0)
  }

  lemma {:induction false} WindowBelowTail(attempts: seq<Attempt>, lo: int, hi: int, since: int)
    requires since <= lo
    ensures CountIn(attempts, lo, hi) <= CountSince(attempts, since)
  {
    if attempts != [] {
      WindowBelowTail(attempts[..|attempts| - 1], lo, hi, since);
    }
  }

  lemma {:induction false} LimitedWindow(attempts: seq<Attempt>, span: int, limit: int, start: int)
    requires Limited(attempts, span, limit)
    ensures CountIn(attempts, start, start + span) == 0 || CountIn(attempts, start, start + span) <= limit
  {
    if attempts != [] {
      var n := |attempts| - 1;
      var rest, last := attempts[..n], attempts[n];
      forall i | 0 <= i < n ensures LimitedAt(rest, i, span, limit) {
        assert LimitedAt(attempts, i, span, limit);
        assert rest[..i] == attempts[..i];
      }
      LimitedWindow(rest, span, limit, start);
      assert LimitedAt(attempts, n, span, limit);
      if start <= last.at <= start + span {
        WindowBelowTail(rest, start, start + span, last.at - span);
      }
    }
  }

  lemma {:induction false} PrefixCount(attempts: seq<Attempt>, n: nat, m: nat, lo: int, hi: int)
    requires n <= m <= |attempts|
    ensures CountIn(attempts[..n], lo, hi) <= CountIn(attempts[..m], lo, hi)
  {
    if n < m {
      PrefixCount(attempts, n, m - 1, lo, hi);
      assert attempts[..m][..m - 1] == attempts[..m - 1];
    }
  }

  lemma {:induction false} SentBelowReserved(attempts: seq<Attempt>, sent: seq<nat>, lo: int, hi: int)
    requires SentReserved(attempts, sent)
    ensures SentIn(attempts, sent, lo, hi) <= CountIn(attempts[..if sent == [] then 0 else sent[|sent| - 1] + 1], lo, hi)
  {
    if sent != [] {
      var k := |sent| - 1;
      SentBelowReserved(attempts, sent[..k], lo, hi);
      PrefixCount(attempts, if k == 0 then 0 else sent[k - 1] + 1, sent[k], lo, hi);
      assert attempts[..sent[k] + 1][..sent[k]] == attempts[..sent[k]];
    }
  }

  /**
   Whatever crashes, failed writes and clock steps occur: no window holds more reservations, or more transmissions,
   than its limit.
   */
  lemma {:induction false} WindowLimits(cfg: SmsConfig, siteId: string, steps: seq<SmsStep>, start: int)
    requires cfg.InRange() && cfg.hourlyLimit >= 0 && cfg.dailyLimit >= 0
    ensures var p := Run(cfg, siteId, steps);
      && CountIn(p.db.attempts, start, start + HOUR) <= cfg.hourlyLimit
      && CountIn(p.db.attempts, start, start + DAY) <= cfg.dailyLimit
      && SentReserved(p.db.attempts, p.sent)
      && SentIn(p.db.attempts, p.sent, start, start + HOUR) <= cfg.hourlyLimit
      && SentIn(p.db.attempts, p.sent, start, start + DAY) <= cfg.dailyLimit
  {
    RunKeepsInv(cfg, siteId, steps);
    var p := Run(cfg, siteId, steps);
    LimitedWindow(p.db.attempts, HOUR, cfg.hourlyLimit, start);
    LimitedWindow(p.db.attempts, DAY, cfg.dailyLimit, start);
    SentBelow(p.db.attempts, p.sent, start, start + HOUR);
    SentBelow(p.db.attempts, p.sent, start, start + DAY);
  }

  lemma SentBelow(attempts: seq<Attempt>, sent: seq<nat>, lo: int, hi: int)
    requires SentReserved(attempts, sent)
    ensures SentIn(attempts, sent, lo, hi) <= CountIn(attempts, lo, hi)
  {
    SentBelowReserved(attempts, sent, lo, hi);
    PrefixCount(attempts, if sent == [] then 0 else sent[|sent| - 1] + 1, |attempts|, lo, hi);
    assert attempts[..|attempts|] == attempts;
  }

  /**
   Over its whole life an incident gets at most MaxAttempts reservations, counted in its row, each a retry interval
   after the one before.
   */
  lemma {:induction false} IncidentLimits(cfg: SmsConfig, siteId: string, steps: seq<SmsStep>, key: nat)
    requires cfg.InRange()
    ensures var db := Run(cfg, siteId, steps).db;
      && OwnCount(db.attempts, key) <= cfg.maxAttempts <= MAX_INCIDENT_ATTEMPTS
      && (key in db.incidents ==> db.incidents[key].smsAttempts == OwnCount(db.attempts, key))
      && (forall i, j | 0 <= i < j < |db.attempts| && db.attempts[i].key == key && db.attempts[j].key == key ::
            db.attempts[j].at >= db.attempts[i].at + cfg.retryInterval)
  {
    RunKeepsInv(cfg, siteId, steps);
    var db := Run(cfg, siteId, steps).db;
    if key !in db.incidents {
      NoAttempts(db.attempts, key);
    }
  }

  /** Three attempts for one incident never fit in less than the fifteen-minute window. */
  lemma {:induction false} ThreeAttemptsSpanTheWindow(cfg: SmsConfig, siteId: string, steps: seq<SmsStep>, i: nat, j: nat, k: nat)
    requires cfg.InRange()
    requires var attempts := Run(cfg, siteId, steps).db.attempts;
      i < j < k < |attempts| && attempts[i].key == attempts[j].key == attempts[k].key
    ensures var attempts := Run(cfg, siteId, steps).db.attempts;
      attempts[k].at - attempts[i].at >= INCIDENT_ATTEMPT_WINDOW
  {
    var attempts := Run(cfg, siteId, steps).db.attempts;
    var key := attempts[i].key;
    IncidentLimits(cfg, siteId, steps, key);
    TwoAttempts(attempts, key, i, j);
  }

  lemma {:induction false} TwoAttempts(attempts: seq<Attempt>, key: nat, i: nat, j: nat)
    requires i < j < |attempts| && attempts[i].key == key && attempts[j].key == key
    ensures OwnCount(attempts, key) >= 2
  {
    if j < |attempts| - 1 {
      TwoAttempts(attempts[..|attempts| - 1], key, i, j);
    } else {
      OneAttempt(attempts[..j], key, i);
    }
  }

  lemma {:induction false} OneAttempt(attempts: seq<Attempt>, key: nat, i: nat)
    requires i < |attempts| && attempts[i].key == key
    ensures OwnCount(attempts, key) >= 1
  {
    if i < |attempts| - 1 {
      OneAttempt(attempts[..|attempts| - 1], key, i);
    }
  }

  // ---- The other transactions stay inside the frame ----

  lemma QueueTransactionsAreFrames(cfg: Config, db: EdgeDb, e: Event, status: Status, now: int, disk: Disk, s: nat)
    ensures SmsFrame(db, Insert(cfg, db, e, status, now, disk).0)
    ensures SmsFrame(db, MarkPendingUpload(db, s).0)
    ensures SmsFrame(db, Purge(db, now))
  {
  }

  lemma RejectionsAreFrames(db: EdgeDb, s: nat, at: int, cause: string, rejected: bool)
    ensures SmsFrame(db, Abandon(db, s, cause).0)
    ensures SmsFrame(db, MarkFailed(db, s, at, cause, rejected).0)
  {
  }

  lemma DeliveryIsFrame(db: EdgeDb, s: nat, at: int)
    ensures SmsFrame(db, CompleteUpload(db, s, at).0)
    ensures SmsFrame(db, RecordUploadFailure(db, s))
  {
  }

  /** Whatever the store commits beside attempts keeps the budget: it is a StoreStep of the machine. */
  lemma OtherTransactionsAreFrames(cfg: Config, db: EdgeDb, tx: Transaction)
    requires !tx.ReserveTx? && !tx.RecordTx?
    ensures SmsFrame(db, Commit(cfg, db, tx))
  {
    match tx {
      case InsertTx(event, status, now, disk) => QueueTransactionsAreFrames(cfg, db, event, status, now, disk, 0);
      case AbandonTx(s, cause) => RejectionsAreFrames(db, s, 0, cause, false);
      case FailTx(s, retryAt, cause, rejected) => RejectionsAreFrames(db, s, retryAt, cause, rejected);
      case CompleteTx(s, at) => DeliveryIsFrame(db, s, at);
      case UploadFailureTx(s) => DeliveryIsFrame(db, s, 0);
      case ReopenTx => ReopenIsFrame(db);
      case _ =>
    }
  }
}
