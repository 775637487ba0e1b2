/** When a poll texts an incident or a heartbeat, exactly, and what it writes; and why every SMS of every run was called for. */
module SmsEffects {
  import opened Prelude
  import opened EdgeModel
  import opened SmsLimits
  import Coordinator
  import Heartbeats
  import SmsAcceptance
  import SmsMessages
  import Text

  // ---- Configuration ----

  /**
   Attempts outside one to three become three, a shorter interval than 450 seconds between several attempts becomes
   that long, and the rest stays.
   */
  lemma ClampedExactly(cfg: SmsConfig)
    ensures var (c, minimum) := (cfg.Clamped(), if cfg.Clamped().maxAttempts == 1 then 0 else 450_000);
      && c == cfg.(maxAttempts := c.maxAttempts, retryInterval := c.retryInterval)
      && c.maxAttempts == (if 1 <= cfg.maxAttempts <= 3 then cfg.maxAttempts else 3)
      && c.retryInterval == if cfg.retryInterval < minimum then minimum else cfg.retryInterval
  {
  }

  // ---- When an incident may be texted ----

  /** Nothing has ended the need for an SMS. */
  predicate Unanswered(i: Incident) {
    i.resolvedAt.None? && i.deliveredAt.None? && i.smsSentAt.None?
  }

  /** Uploads have failed for the incident often enough, or nothing has been uploaded for long enough. */
  predicate OutOfReach(cfg: SmsConfig, i: Incident, lastSuccess: Option<int>, now: int) {
    || i.uploadFailures >= cfg.failureThreshold
    || (lastSuccess.Some? && now - lastSuccess.value >= cfg.offlineAfter)
    || (lastSuccess.None? && now - i.openedAt >= cfg.offlineAfter)
  }

  /** The attempts on record for an incident. */
  ghost function AttemptsFor(attempts: seq<Attempt>, key: nat): set<nat> {
    set i | 0 <= i < |attempts| && attempts[i].key == key
  }

  ghost function AttemptsSince(attempts: seq<Attempt>, since: int): set<nat> {
    set i | 0 <= i < |attempts| && attempts[i].at >= since
  }

  lemma {:induction false} OwnAttemptsCounted(attempts: seq<Attempt>, key: nat)
    ensures OwnCount(attempts, key) == |AttemptsFor(attempts, key)|
  {
    if attempts != [] {
      var n := |attempts| - 1;
      OwnAttemptsCounted(attempts[..n], key);
      assert AttemptsFor(attempts, key) == AttemptsFor(attempts[..n], key) + (if attempts[n].key == key then {n} else {});
    }
  }

  lemma {:induction false} RecentAttemptsCounted(attempts: seq<Attempt>, since: int)
    ensures CountSince(attempts, since) == |AttemptsSince(attempts, since)|
  {
    if attempts != [] {
      var n := |attempts| - 1;
      RecentAttemptsCounted(attempts[..n], since);
      assert AttemptsSince(attempts, since) == AttemptsSince(attempts[..n], since) + (if attempts[n].at >= since then {n} else {});
    }
  }

  /** Every limit leaves room for one more attempt, and the incident has waited as long as it was told to. */
  ghost predicate WithinLimits(cfg: SmsConfig, db: EdgeDb, key: nat, now: int) {
    && |AttemptsFor(db.attempts, key)| < cfg.maxAttempts
    && |AttemptsSince(db.attempts, now - 3_600_000)| < cfg.hourlyLimit
    && |AttemptsSince(db.attempts, now - 86_400_000)| < cfg.dailyLimit
    && key in db.incidents && (db.incidents[key].nextSmsAttempt.Some? ==> db.incidents[key].nextSmsAttempt.value <= now)
  }

  ghost predicate AttemptedAt(db: EdgeDb, key: nat, now: int) {
    exists i :: 0 <= i < |db.attempts| && db.attempts[i].key == key && db.attempts[i].at == now
  }

  /** The candidates are the unanswered incidents, all of them, with what they looked like when the poll began. */
  lemma CandidatesExactly(db: EdgeDb, now: int, list: seq<Candidate>)
    requires CandidateList(db, now, list)
    ensures forall s :: s in db.incidents && Unanswered(db.incidents[s]) <==> exists k :: 0 <= k < |list| && list[k].sequence == s
    ensures forall k | 0 <= k < |list| ::
      list[k].sequence in db.incidents && list[k].incident == db.incidents[list[k].sequence] && list[k].lastUploadSuccess == db.sync.lastSuccess
    ensures forall j, k | 0 <= j < k < |list| ::
      || list[j].incident.openedAt < list[k].incident.openedAt
      || (list[j].incident.openedAt == list[k].incident.openedAt && list[j].sequence < list[k].sequence)
  {
    forall s | s in db.incidents && Unanswered(db.incidents[s]) ensures exists k :: 0 <= k < |list| && list[k].sequence == s {
      assert CandidateOf(db, s, now) in list;
    }
  }

  // ---- What is texted ----

  /** What an incident's SMS says: its record's number, its asset and code, what was measured, and when. */
  function Told(siteId: string, c: Candidate): SmsMessages.FallbackEvent
    requires c.sequence < Text.UINT64_LIMIT && -Text.INT64_LIMIT <= c.incident.eventAt < Text.INT64_LIMIT
  {
    SmsMessages.FallbackEvent(siteId, c.incident.assetId, c.sequence, c.incident.code, c.incident.temperature, Some(c.incident.eventAt))
  }

  /** A candidate can be texted exactly if that can be told in one segment. */
  lemma TextedExactly(siteId: string, c: Candidate)
    requires c.sequence < Text.UINT64_LIMIT && -Text.INT64_LIMIT <= c.incident.eventAt < Text.INT64_LIMIT
    ensures Formats(siteId, c) <==>
      && SmsAcceptance.Tellable(Told(siteId, c))
      && SmsMessages.Septets(SmsAcceptance.TextOf(SmsAcceptance.OrderOf(c.incident.code), SmsAcceptance.PrintedValues(Told(siteId, c)))) <= 160
  {
    var e := Told(siteId, c);
    if SmsAcceptance.Tellable(e) {
      SmsAcceptance.FormattedExactly(e, SmsAcceptance.TextOf(SmsAcceptance.OrderOf(e.code), SmsAcceptance.PrintedValues(e)));
    }
    if SmsMessages.Format(e).Ok? {
      SmsAcceptance.FormattedExactly(e, SmsMessages.Format(e).value);
    }
  }

  /** The text of a heartbeat: who is alive, its number, the whole seconds between heartbeats, and when it was sent. */
  function BeatText(siteId: string, gatewayId: string, sequence: nat, interval: int, now: int): string {
    SmsAcceptance.TextOf(SmsAcceptance.BeatOrder(),
      ["1", "HB", siteId, gatewayId, Text.PrintNat(sequence), Text.PrintInt(interval / 1000), Text.PrintInt(now / 1000)])
  }

  /**
   A heartbeat can be texted exactly if its identities are plain, it is numbered, and its interval is a whole
   number of seconds from one minute to one day.
   */
  lemma BeatTextedExactly(siteId: string, gatewayId: string, sequence: nat, interval: int, now: int)
    requires sequence < Text.UINT64_LIMIT && -Text.INT64_LIMIT <= now < Text.INT64_LIMIT
    ensures Coordinator.HeartbeatFormats(siteId, gatewayId, interval, sequence, now) <==>
      && SmsAcceptance.Token(siteId) && SmsAcceptance.Token(gatewayId) && sequence > 0
      && interval % 1000 == 0 && 60_000 <= interval <= 86_400_000
      && SmsMessages.Septets(BeatText(siteId, gatewayId, sequence, interval, now)) <= 160
  {
    var h := SmsMessages.Heartbeat(siteId, gatewayId, sequence, interval * 1_000_000, Some(now));
    var text := BeatText(siteId, gatewayId, sequence, interval, now);
    InNanoseconds(interval);
    SmsAcceptance.BeatFormattedExactly(h, text);
    if SmsMessages.FormatHeartbeat(h).Ok? {
      SmsAcceptance.BeatFormattedExactly(h, SmsMessages.FormatHeartbeat(h).value);
    }
  }

  /** Milliseconds told in nanoseconds. */
  lemma InNanoseconds(interval: int)
    ensures interval * 1_000_000 / 1_000_000_000 == interval / 1000
    ensures interval * 1_000_000 % 1_000_000_000 == 0 <==> interval % 1000 == 0
    ensures 60_000_000_000 <= interval * 1_000_000 <= 86_400_000_000_000 <==> 60_000 <= interval <= 86_400_000
  {
  }

  // ---- One candidate ----

  /** The next attempt lies at least the interval away; an even later time stays. */
  predicate PushedBack(before: Option<int>, after: Option<int>, next: int) {
    after.Some? && after.value >= next && (before.Some? ==> after.value >= before.value) && (after.value == next || after == before)
  }

  /** One more attempt of the incident is on record, before anything is sent. */
  predicate ReservedOnce(cfg: SmsConfig, db: EdgeDb, db': EdgeDb, key: nat, now: int) {
    && key in db.incidents && key in db'.incidents
    && db' == db.(attempts := db.attempts + [Attempt(key, now, None)], incidents := db.incidents[key := db'.incidents[key]])
    && db'.incidents[key] == db.incidents[key].(smsAttempts := db.incidents[key].smsAttempts + 1, nextSmsAttempt := db'.incidents[key].nextSmsAttempt)
    && PushedBack(db.incidents[key].nextSmsAttempt, db'.incidents[key].nextSmsAttempt, now + cfg.retryInterval)
  }

  /**
   A candidate whose counts are those of the moment may be texted exactly if the platform is out of reach for it
   and every limit leaves room.
   */
  lemma MaySendExactly(cfg: SmsConfig, db: EdgeDb, c: Candidate, hour: nat, day: nat, now: int)
    requires UpToDate(db, c, now, hour, day)
    ensures MaySend(cfg, c, hour, day, now) <==> OutOfReach(cfg, c.incident, c.lastUploadSuccess, now) && WithinLimits(cfg, db, c.sequence, now)
  {
    OwnAttemptsCounted(db.attempts, c.sequence);
    RecentAttemptsCounted(db.attempts, now - HOUR);
    RecentAttemptsCounted(db.attempts, now - DAY);
  }

  /** A reservation is written exactly for a known incident not attempted at this very moment. */
  lemma ReservationWrites(cfg: SmsConfig, db: EdgeDb, key: nat, now: int)
    ensures var (db', ok) := ReserveAttempt(db, key, now, cfg.retryInterval);
      && (ok <==> key in db.incidents && !AttemptedAt(db, key, now))
      && (ok ==> ReservedOnce(cfg, db, db', key, now)) && (!ok ==> db' == db)
  {
    assert Reserved(db.attempts, key, now) <==> AttemptedAt(db, key, now);
  }

  lemma NextIsUpToDate(cfg: SmsConfig, p: Phone)
    requires Inv(cfg, p) && p.poll.Choosing? && p.poll.rest != []
    ensures UpToDate(p.db, p.poll.rest[0], p.poll.now, p.poll.hour, p.poll.day)
  {
  }

  /** What makes the coordinator text the candidate. */
  ghost predicate CalledFor(cfg: SmsConfig, siteId: string, db: EdgeDb, c: Candidate, now: int) {
    && OutOfReach(cfg, c.incident, c.lastUploadSuccess, now) && WithinLimits(cfg, db, c.sequence, now)
    && Formats(siteId, c) && !AttemptedAt(db, c.sequence, now)
  }

  /** The candidate considered next is reserved exactly under these conditions, and otherwise passed over with nothing written. */
  lemma ReservedExactly(cfg: SmsConfig, siteId: string, p: Phone, written: bool)
    requires Inv(cfg, p) && p.poll.Choosing? && p.poll.rest != []
    ensures var (c, now) := (p.poll.rest[0], p.poll.now);
      var p' := Apply(cfg, siteId, p, ChooseStep(written));
      var called := CalledFor(cfg, siteId, p.db, c, now) && written;
      && (called ==> ReservedOnce(cfg, p.db, p'.db, c.sequence, now) && p'.sent == p.sent)
      && (called ==> p'.poll == Sending(now, p.poll.rest[1..], p.poll.hour + 1, p.poll.day + 1, c.sequence, false))
      && (!called ==> p' == p.(poll := Choosing(now, p.poll.rest[1..], p.poll.hour, p.poll.day)))
  {
    NextIsUpToDate(cfg, p);
    MaySendExactly(cfg, p.db, p.poll.rest[0], p.poll.hour, p.poll.day, p.poll.now);
    ReservationWrites(cfg, p.db, p.poll.rest[0].sequence, p.poll.now);
  }

  /** How the attempt of this moment ended: sent for good, or to be tried again after the retry interval. */
  predicate EndedAs(cfg: SmsConfig, db: EdgeDb, db': EdgeDb, key: nat, now: int, ok: bool)
    requires key in db.incidents
  {
    && |db'.attempts| == |db.attempts| && key in db'.incidents
    && (forall i | 0 <= i < |db.attempts| :: db'.attempts[i] ==
          if db.attempts[i].key == key && db.attempts[i].at == now then db.attempts[i].(succeeded := Some(ok)) else db.attempts[i])
    && db' == db.(attempts := db'.attempts, incidents := db.incidents[key := db'.incidents[key]])
    && var (before, after) := (db.incidents[key], db'.incidents[key]); (
         && after == before.(smsSentAt := after.smsSentAt, nextSmsAttempt := after.nextSmsAttempt)
         && after.smsSentAt == (if ok && before.smsSentAt.None? then Some(now) else before.smsSentAt)
         && after.nextSmsAttempt == if ok then before.nextSmsAttempt else Some(now + cfg.retryInterval))
  }

  lemma RecordingEnds(cfg: SmsConfig, db: EdgeDb, key: nat, now: int, ok: bool)
    requires key in db.incidents && AttemptedAt(db, key, now)
    ensures key in Recorded(cfg, db, key, now, ok).incidents && EndedAs(cfg, db, Recorded(cfg, db, key, now, ok), key, now, ok)
  {
    assert Reserved(db.attempts, key, now);
  }

  /** A whole turn: under those conditions one reservation, one transmission and its outcome; otherwise nothing at all. */
  lemma TurnSendsExactly(cfg: SmsConfig, siteId: string, p: Phone, ok: bool)
    requires Inv(cfg, p) && p.poll.Choosing? && p.poll.rest != []
    ensures var (c, now) := (p.poll.rest[0], p.poll.now);
      var p' := Coordinator.Turn(cfg, siteId, p, ok);
      var called := CalledFor(cfg, siteId, p.db, c, now);
      && (called ==> p'.sent == p.sent + [|p.db.attempts|])
      && (called ==> exists reserved :: ReservedOnce(cfg, p.db, reserved, c.sequence, now) && EndedAs(cfg, reserved, p'.db, c.sequence, now, ok))
      && (!called ==> p'.sent == p.sent && p'.db == p.db)
  {
    var (c, now) := (p.poll.rest[0], p.poll.now);
    ReservedExactly(cfg, siteId, p, true);
    var chosen := Apply(cfg, siteId, p, ChooseStep(true));
    assert chosen == Choose(cfg, siteId, p, true);
    if chosen.poll.Sending? {
      assert chosen.db.attempts[|p.db.attempts|] == Attempt(c.sequence, now, None);
      RecordingEnds(cfg, chosen.db, c.sequence, now, ok);
    }
  }

  // ---- Every SMS of every run was called for ----

  /** The poll whose candidates are being worked through, and how far it has got. */
  lemma {:induction false} PollOrigin(cfg: SmsConfig, siteId: string, steps: seq<SmsStep>) returns (m: nat, k: nat)
    requires !Run(cfg, siteId, steps).poll.Off?
    ensures m < |steps| && steps[m].PollStep? && CandidateList(Run(cfg, siteId, steps[..m]).db, steps[m].now, steps[m].candidates)
    ensures var poll := Run(cfg, siteId, steps).poll;
      k <= |steps[m].candidates| && poll.now == steps[m].now && poll.rest == steps[m].candidates[k..]
  {
    var earlier, last := steps[..|steps| - 1], steps[|steps| - 1];
    var before := Run(cfg, siteId, earlier);
    if last.PollStep? && CandidateList(before.db, last.now, last.candidates) {
      m, k := |steps| - 1, 0;
    } else {
      m, k := PollOrigin(cfg, siteId, earlier);
      assert earlier[..m] == steps[..m];
      if last.ChooseStep? && before.poll.Choosing? && before.poll.rest != [] {
        k := k + 1;
      }
    }
  }

  lemma StepAttempts(cfg: SmsConfig, siteId: string, p: Phone, step: SmsStep)
    ensures var attempts := Apply(cfg, siteId, p, step).db.attempts;
      && |p.db.attempts| <= |attempts|
      && (forall i | 0 <= i < |p.db.attempts| :: attempts[i].key == p.db.attempts[i].key && attempts[i].at == p.db.attempts[i].at)
      && (|attempts| > |p.db.attempts| ==> step.ChooseStep? && p.poll.Choosing? && p.poll.rest != [] && |attempts| == |p.db.attempts| + 1)
  {
  }

  /** Each attempt was reserved in a poll that found its incident unanswered and the platform out of reach. */
  lemma {:induction false} EveryAttemptWasCalledFor(cfg: SmsConfig, siteId: string, steps: seq<SmsStep>, i: nat) returns (m: nat)
    requires cfg.InRange() && i < |Run(cfg, siteId, steps).db.attempts|
    ensures var attempt := Run(cfg, siteId, steps).db.attempts[i];
      && m < |steps| && steps[m].PollStep? && steps[m].now == attempt.at
      && var db := Run(cfg, siteId, steps[..m]).db; (
           && attempt.key in db.incidents && Unanswered(db.incidents[attempt.key])
           && OutOfReach(cfg, db.incidents[attempt.key], db.sync.lastSuccess, attempt.at))
  {
    var earlier, last := steps[..|steps| - 1], steps[|steps| - 1];
    var before := Run(cfg, siteId, earlier);
    StepAttempts(cfg, siteId, before, last);
    if i < |before.db.attempts| {
      m := EveryAttemptWasCalledFor(cfg, siteId, earlier, i);
      assert earlier[..m] == steps[..m];
    } else {
      var k;
      m, k := PollOrigin(cfg, siteId, earlier);
      assert earlier[..m] == steps[..m];
      RunKeepsInv(cfg, siteId, earlier);
      ReservedExactly(cfg, siteId, before, last.written);
      CandidatesExactly(Run(cfg, siteId, steps[..m]).db, steps[m].now, steps[m].candidates);
      assert before.poll.rest[0] == steps[m].candidates[k];
      var s := steps[m].candidates[k].sequence;
      assert Unanswered(Run(cfg, siteId, steps[..m]).db.incidents[s]);
    }
  }

  // ---- Heartbeats ----

  /** Nothing has been uploaded for long enough, counting from the start of the process if nothing ever was. */
  predicate Silent(cfg: SmsConfig, db: EdgeDb, startedAt: int, now: int) {
    && (db.sync.lastSuccess.Some? ==> now - db.sync.lastSuccess.value >= cfg.offlineAfter)
    && (db.sync.lastSuccess.None? ==> now - startedAt >= cfg.offlineAfter)
  }

  /** The last heartbeat on record belongs to an earlier outage, or lies far enough back: a failed one may be repeated sooner. */
  predicate Rested(cfg: SmsConfig, hb: Heartbeats.HeartbeatConfig, db: EdgeDb, now: int) {
    db.heartbeats != [] ==>
      var last := db.heartbeats[|db.heartbeats| - 1];
      || (db.sync.lastSuccess.Some? && last.at <= db.sync.lastSuccess.value)
      || now - last.at >= hb.interval
      || (last.succeeded == Some(false) && now - last.at >= cfg.retryInterval)
  }

  ghost function BeatsSince(heartbeats: seq<HeartbeatAttempt>, since: int): set<nat> {
    set i | 0 <= i < |heartbeats| && heartbeats[i].at >= since
  }

  lemma {:induction false} BeatsCounted(heartbeats: seq<HeartbeatAttempt>, since: int)
    ensures HeartbeatsSince(heartbeats, since) == |BeatsSince(heartbeats, since)|
  {
    if heartbeats != [] {
      var n := |heartbeats| - 1;
      BeatsCounted(heartbeats[..n], since);
      assert BeatsSince(heartbeats, since) == BeatsSince(heartbeats[..n], since) + (if heartbeats[n].at >= since then {n} else {});
    }
  }

  ghost predicate BeatCalledFor(cfg: SmsConfig, hb: Heartbeats.HeartbeatConfig, db: EdgeDb, startedAt: int, now: int) {
    Silent(cfg, db, startedAt, now) && |BeatsSince(db.heartbeats, now - 86_400_000)| < hb.dailyLimit && Rested(cfg, hb, db, now)
  }

  lemma DueExactly(cfg: SmsConfig, hb: Heartbeats.HeartbeatConfig, db: EdgeDb, startedAt: int, now: int)
    ensures Heartbeats.Due(cfg, hb, Heartbeats.StateAt(db, now), startedAt, now) <==> BeatCalledFor(cfg, hb, db, startedAt, now)
  {
    BeatsCounted(db.heartbeats, now - DAY);
  }

  lemma {:induction false} PrunedMembers(table: seq<HeartbeatAttempt>, cutoff: int, h: HeartbeatAttempt)
    ensures h in PruneBefore(table, cutoff) <==> h in table && h.at >= cutoff
  {
    if table != [] {
      var rest, last := table[..|table| - 1], table[|table| - 1];
      PrunedMembers(rest, cutoff, h);
      assert table == rest + [last];
    }
  }

  /**
   A poll reserves a heartbeat exactly when one is called for: a fresh sequence at this moment, with nothing older
   than a week kept.
   */
  lemma BeatReservedExactly(cfg: SmsConfig, hb: Heartbeats.HeartbeatConfig, b: Heartbeats.Beacon, now: int)
    ensures var b' := Heartbeats.Apply(cfg, hb, b, Heartbeats.PollStep(now));
      var startedAt := if b.startedAt.Some? then b.startedAt.value else now;
      var attempt := HeartbeatAttempt(b.db.lastHeartbeat + 1, now, None);
      && b'.startedAt == Some(startedAt)
      && (BeatCalledFor(cfg, hb, b.db, startedAt, now) ==>
            && b'.log == b.log + [Attempt(attempt.sequence, now, None)]
            && b'.db == b.db.(heartbeats := b'.db.heartbeats, lastHeartbeat := attempt.sequence)
            && b'.db.heartbeats != [] && b'.db.heartbeats[|b'.db.heartbeats| - 1] == attempt
            && forall h :: h in b'.db.heartbeats <==> h == attempt || (h in b.db.heartbeats && h.at >= now - 7 * 86_400_000))
      && (!BeatCalledFor(cfg, hb, b.db, startedAt, now) ==> b'.log == b.log && b'.db == b.db)
  {
    var startedAt := if b.startedAt.Some? then b.startedAt.value else now;
    DueExactly(cfg, hb, b.db, startedAt, now);
    forall h ensures h in PruneBefore(b.db.heartbeats, now - HEARTBEAT_RETENTION) <==> h in b.db.heartbeats && h.at >= now - HEARTBEAT_RETENTION {
      PrunedMembers(b.db.heartbeats, now - HEARTBEAT_RETENTION, h);
    }
  }

  /** A poll's heartbeat: under a fresh sequence with its outcome if one is called for, and nothing otherwise. */
  lemma BeatWrites(cfg: SmsConfig, hb: Heartbeats.HeartbeatConfig, db: EdgeDb, startedAt: int, now: int, delivered: bool)
    ensures var db' := Coordinator.AfterBeat(cfg, hb, db, startedAt, now, delivered);
      var attempt := HeartbeatAttempt(db.lastHeartbeat + 1, now, Some(delivered));
      && (!BeatCalledFor(cfg, hb, db, startedAt, now) ==> db' == db)
      && (BeatCalledFor(cfg, hb, db, startedAt, now) ==>
            && db' == db.(heartbeats := db'.heartbeats, lastHeartbeat := attempt.sequence)
            && db'.heartbeats != [] && db'.heartbeats[|db'.heartbeats| - 1] == attempt)
  {
    DueExactly(cfg, hb, db, startedAt, now);
    var reserved := ReserveHeartbeat(db, now);
    BeatRecorded(reserved, db.lastHeartbeat + 1, delivered);
    assert reserved.heartbeats[|reserved.heartbeats| - 1] == HeartbeatAttempt(db.lastHeartbeat + 1, now, None);
  }

  /** Recording an outcome marks the heartbeats of that sequence and nothing else. */
  lemma BeatRecorded(db: EdgeDb, sequence: nat, ok: bool)
    ensures var db' := RecordHeartbeat(db, sequence, ok);
      && db' == db.(heartbeats := db'.heartbeats) && |db'.heartbeats| == |db.heartbeats|
      && forall i | 0 <= i < |db.heartbeats| :: db'.heartbeats[i] ==
           if db.heartbeats[i].sequence == sequence then db.heartbeats[i].(succeeded := Some(ok)) else db.heartbeats[i]
  {
  }

  /** Every heartbeat of every run was reserved in a poll that found the gateway silent for long enough. */
  lemma {:induction false} EveryBeatWasCalledFor(cfg: SmsConfig, hb: Heartbeats.HeartbeatConfig, steps: seq<Heartbeats.BeatStep>, i: nat) returns (m: nat)
    requires i < |Heartbeats.Run(cfg, hb, steps).log|
    ensures m < |steps| && steps[m].PollStep? && steps[m].now == Heartbeats.Run(cfg, hb, steps).log[i].at
    ensures var b := Heartbeats.Run(cfg, hb, steps[..m]);
      BeatCalledFor(cfg, hb, b.db, if b.startedAt.Some? then b.startedAt.value else steps[m].now, steps[m].now)
  {
    var earlier, last := steps[..|steps| - 1], steps[|steps| - 1];
    var before := Heartbeats.Run(cfg, hb, earlier);
    if i < |before.log| {
      m := EveryBeatWasCalledFor(cfg, hb, earlier, i);
      assert earlier[..m] == steps[..m];
      LogOnlyGrows(cfg, hb, before, last);
    } else {
      m := |steps| - 1;
      assert last.PollStep?;
      BeatReservedExactly(cfg, hb, before, last.now);
    }
  }

  lemma LogOnlyGrows(cfg: SmsConfig, hb: Heartbeats.HeartbeatConfig, b: Heartbeats.Beacon, step: Heartbeats.BeatStep)
    ensures b.log <= Heartbeats.Apply(cfg, hb, b, step).log
  {
  }
}
